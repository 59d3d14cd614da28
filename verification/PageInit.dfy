/**
 * page_init of rig/model_state.py: a new expert's weights, drawn from a hash
 * stream over its trigger. The stream is an arbitrary function: lane j is lane
 * j mod 4 of the trigger's digest number j div 4.
 */
module PageInit {
  import opened Int64

  const INIT_SPAN: nat := 2623
  const INIT_HALF: int := 1311

  type Stream = (nat, nat, nat) -> nat

  /** An expert's dimensions: W1, b1, W2 and b2, row by row. */
  datatype Shape = Shape(model: nat, hidden: nat) {
    function Len(): nat { model * hidden + hidden + hidden * model + model }

    predicate IsWeight(j: nat) {
      j < model * hidden || model * hidden + hidden <= j < model * hidden + hidden + hidden * model
    }
  }

  function Draw(u: nat): int64 { u % INIT_SPAN - INIT_HALF }

  /** Coordinate j: a weight is drawn, a bias is zero. */
  function Coordinate(stream: Stream, shape: Shape, trigger: nat, id: nat, j: nat): int64 {
    if shape.IsWeight(j) then Draw(stream(trigger, id, j)) else 0
  }

  function Initial(stream: Stream, shape: Shape, trigger: nat, id: nat): (w: seq<int64>)
    ensures |w| == shape.Len()
  {
    seq(shape.Len(), j requires 0 <= j => Coordinate(stream, shape, trigger, id, j))
  }

  /** The coordinates below j are drawn. */
  ghost predicate DrawnBelow(w: seq<int64>, stream: Stream, shape: Shape, trigger: nat, id: nat, j: nat) {
    forall k :: 0 <= k < |w| ==> w[k] == if k < j then Coordinate(stream, shape, trigger, id, k) else 0
  }

  /** The loop over digests and their four lanes. */
  method Fill(stream: Stream, shape: Shape, trigger: nat, id: nat) returns (w: seq<int64>)
    ensures w == Initial(stream, shape, trigger, id)
  {
    var n := shape.Len();
    w := seq(n, _ => 0);
    var j := 0;
    while j < n
      invariant 0 <= j <= n && |w| == n && DrawnBelow(w, stream, shape, trigger, id, j)
    {
      var start, lane := j, 0;
      while lane < 4 && j < n
        invariant 0 <= lane <= 4 && j == start + lane <= n
        invariant |w| == n && DrawnBelow(w, stream, shape, trigger, id, j)
      {
        if shape.IsWeight(j) { w := w[j := Draw(stream(trigger, id, j))]; }
        j, lane := j + 1, lane + 1;
      }
    }
  }

  /** The two triggers' draws for a weight coordinate differ. */
  predicate DrawsDiffer(stream: Stream, shape: Shape, s: nat, t: nat, id: nat, j: nat) {
    j < shape.Len() && shape.IsWeight(j) && stream(s, id, j) % INIT_SPAN != stream(t, id, j) % INIT_SPAN
  }

  /** Two triggers start a page alike if and only if all their draws agree; biases never tell them apart. */
  lemma {:induction false} TriggersDiffer(stream: Stream, shape: Shape, s: nat, t: nat, id: nat)
    ensures Initial(stream, shape, s, id) != Initial(stream, shape, t, id)
      <==> exists j: nat :: DrawsDiffer(stream, shape, s, t, id, j)
  {
    var a, b := Initial(stream, shape, s, id), Initial(stream, shape, t, id);
    if a != b {
      var j :| 0 <= j < |a| && a[j] != b[j];
      assert DrawsDiffer(stream, shape, s, t, id, j);
    }
    if j: nat :| DrawsDiffer(stream, shape, s, t, id, j) { assert a[j] != b[j]; }
  }

  /** x is u, moved by a multiple of 2623 into [-1311, 1311]. */
  ghost predicate Centred(u: nat, x: int) { -1311 <= x <= 1311 && (u - 1311 - x) % 2623 == 0 }

  /**
   * A page is its two weight matrices and two bias vectors in the order W1, b1, W2,
   * b2: every weight is its stream value moved into [-1311, 1311], every bias zero.
   */
  lemma {:induction false} InitialIs(
    stream: Stream, model: nat, hidden: nat, trigger: nat, id: nat, w: seq<int64>, area: nat)
    requires area == model * hidden
    ensures w == Initial(stream, Shape(model, hidden), trigger, id) <==>
      && |w| == 2 * area + hidden + model
      && (forall j :: 0 <= j < area ==> Centred(stream(trigger, id, j), w[j]))
      && (forall j :: area <= j < area + hidden ==> w[j] == 0)
      && (forall j :: area + hidden <= j < 2 * area + hidden ==> Centred(stream(trigger, id, j), w[j]))
      && (forall j :: 2 * area + hidden <= j < |w| ==> w[j] == 0)
  {
    var shape, v := Shape(model, hidden), Initial(stream, Shape(model, hidden), trigger, id);
    Areas(model, hidden, area);
    assert |v| == 2 * area + hidden + model;
    if |w| == |v| {
      forall j: nat | j < |w|
        ensures w[j] == v[j] <==>
          if j < area || area + hidden <= j < 2 * area + hidden
          then Centred(stream(trigger, id, j), w[j]) else w[j] == 0
      {
        CentredIs(stream(trigger, id, j), w[j]);
      }
    }
  }

  lemma {:induction false} Areas(model: nat, hidden: nat, area: nat)
    requires area == model * hidden
    ensures Shape(model, hidden).Len() == 2 * area + hidden + model
    ensures forall j: nat :: Shape(model, hidden).IsWeight(j) <==> j < area || area + hidden <= j < 2 * area + hidden
  {
    assert hidden * model == area;
  }

  lemma {:induction false} CentredIs(u: nat, x: int)
    ensures Centred(u, x) <==> x == Draw(u)
  {
  }
}
