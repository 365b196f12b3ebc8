/**
 * Collecting a named text block: the lines strictly between a start directive
 * and the end `Boundary.FindMatchingEnd` finds, unindented so that the least
 * indented non-empty line sits at column 0.
 */
module Blocks {
  import opened Wrappers
  import opened Lines
  import opened Boundary

  /** The non-empty lines of `block`, in order. */
  function NonEmpty(block: seq<Line>): (r: seq<Line>)
    ensures |r| <= |block|
    ensures forall l :: l in r <==> l in block && l.Truthy()
    ensures r == [] <==> forall i :: 0 <= i < |block| ==> !block[i].Truthy()
  {
    if block == [] then []
    else if block[0].Truthy() then [block[0]] + NonEmpty(block[1..])
    else NonEmpty(block[1..])
  }

  /** The smallest indentation of the lines. */
  function MinIndent(ls: seq<Line>): (m: int)
    requires ls != []
    ensures forall i :: 0 <= i < |ls| ==> m <= ls[i].indent
    ensures exists i :: 0 <= i < |ls| && ls[i].indent == m
  {
    if |ls| == 1 then ls[0].indent
    else
      var rest := MinIndent(ls[1..]);
      if ls[0].indent <= rest then ls[0].indent else rest
  }

  /** Every non-empty line sits at column 0 or right of it, and one at column 0. */
  predicate LeftAligned(ls: seq<Line>) {
    (forall i :: 0 <= i < |ls| && ls[i].Truthy() ==> ls[i].indent >= 0)
    && exists i :: 0 <= i < |ls| && ls[i].Truthy() && ls[i].indent == 0
  }

  /** `dst` is `src` with every indentation changed by the same `delta`. */
  predicate ShiftedBy(src: seq<Line>, dst: seq<Line>, delta: int) {
    |dst| == |src| && forall i :: 0 <= i < |src| ==> dst[i] == src[i].Shifted(delta)
  }

  /**
   * The block moved left by the smallest indentation of its non-empty lines:
   * empty lines do not count, and they move along with the rest.
   */
  function Normalise(block: seq<Line>): (r: seq<Line>)
    requires NonEmpty(block) != []
    ensures ShiftedBy(block, r, -MinIndent(NonEmpty(block)))
    ensures LeftAligned(r)
  {
    var m := MinIndent(NonEmpty(block));
    var r := ShiftAll(block, -m);
    forall i | 0 <= i < |block| && block[i].Truthy() ensures r[i].indent >= 0 {
      assert block[i] in NonEmpty(block);
    }
    var k :| 0 <= k < |NonEmpty(block)| && NonEmpty(block)[k].indent == m;
    assert NonEmpty(block)[k] in block;
    var j :| 0 <= j < |block| && block[j] == NonEmpty(block)[k];
    assert r[j].Truthy() && r[j].indent == 0;
    r
  }

  /** A left-aligned block's smallest non-empty indentation is 0. */
  lemma {:induction false} LeftAlignedMinIsZero(block: seq<Line>)
    requires LeftAligned(block)
    ensures NonEmpty(block) != [] && MinIndent(NonEmpty(block)) == 0
  {
    var ne := NonEmpty(block);
    var j :| 0 <= j < |block| && block[j].Truthy() && block[j].indent == 0;
    assert block[j] in ne;
    var m := MinIndent(ne);
    assert m <= 0 by {
      var k :| 0 <= k < |ne| && ne[k] == block[j];
    }
    assert m >= 0 by {
      var k :| 0 <= k < |ne| && ne[k].indent == m;
      assert ne[k] in block;
      var i :| 0 <= i < |block| && block[i] == ne[k];
    }
  }

  /** Normalising a block that is already normalised changes nothing. */
  lemma {:induction false} NormaliseIdempotent(block: seq<Line>)
    requires NonEmpty(block) != []
    ensures NonEmpty(Normalise(block)) != []
    ensures Normalise(Normalise(block)) == Normalise(block)
  {
    var n := Normalise(block);
    LeftAlignedMinIsZero(n);
    var nn := Normalise(n);
    assert ShiftedBy(n, nn, 0);
    assert |nn| == |n|;
    forall i | 0 <= i < |n| ensures nn[i] == n[i] {
      assert nn[i] == n[i].Shifted(0);
    }
  }

  /** What collecting a block yields: the named lines, or the error it recorded. */
  datatype Collected = Block(name: string, lines: seq<Line>) | Failed(error: Error)

  /**
   * `@start(name)` at `lines[index]`: the lines strictly between the start and
   * its end, normalised; an "empty block" error for the start's line when all
   * of them are empty. The document's lines are read, never changed.
   */
  function CollectStart(lines: seq<Line>, index: nat, s: Directive): (r: Collected)
    requires s.Start? && index < |lines|
    ensures var end := FindMatchingEnd(s, lines[index..]);
            var inner := lines[index + 1..index + end];
            && (r.Failed? <==> forall i :: index < i < index + end ==> !lines[i].Truthy())
            && (r.Failed? ==> r.error == Error(s.line, EmptyBlock(s.name)))
            && (r.Block? ==> r.name == s.name && |r.lines| == end - 1 && r.lines != [])
            && (r.Block? ==> LeftAligned(r.lines))
            && (r.Block? ==> ShiftedBy(inner, r.lines, -MinIndent(NonEmpty(inner))))
  {
    var end := FindMatchingEnd(s, lines[index..]);
    var inner := lines[index + 1..index + end];
    if NonEmpty(inner) == [] then
      assert forall i :: index < i < index + end ==> lines[i] == inner[i - index - 1];
      Failed(Error(s.line, EmptyBlock(s.name)))
    else
      var r := Normalise(inner);
      assert forall i :: index < i < index + end ==> lines[i] == inner[i - index - 1];
      Block(s.name, r)
  }

  /** The synthetic `@code` line `@cstart` puts in front of its block. */
  function CodeMarker(first: Line): Line {
    first.Like("@code").(directives := [Code(first.index)], index := first.index - 1)
  }

  /**
   * `@cstart(name)`: the `@start` block with one extra leading line, a
   * `@code` line placed just before the first one, so the block is woven as
   * source code; on the empty-block error, the same error.
   */
  function CollectCStart(lines: seq<Line>, index: nat, s: Directive): (r: Collected)
    requires s.Start? && index < |lines|
    ensures var base := CollectStart(lines, index, s);
            && (base.Failed? ==> r == base)
            && (base.Block? ==> r.Block? && r.name == base.name && |r.lines| == |base.lines| + 1)
            && (base.Block? ==> r.lines[1..] == base.lines)
            && (base.Block? ==> r.lines[0].text == "@code" && r.lines[0].directives == [Code(base.lines[0].index)])
            && (base.Block? ==> r.lines[0].index == base.lines[0].index - 1 && r.lines[0].indent == base.lines[0].indent)
  {
    match CollectStart(lines, index, s)
    case Failed(e) => Failed(e)
    case Block(name, block) => Block(name, [CodeMarker(block[0])] + block)
  }
}
