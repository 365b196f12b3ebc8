/**
 * Where a text block ends. A block starts at a `@start`, `@rstart` or
 * `@cstart` line; its end is found by a forward scan with one override rule
 * (a start linked to a named end) and four per-line termination tests. This
 * module also holds the backward search an end directive uses to link itself
 * to the start it names.
 */
module Boundary {
  import opened Wrappers
  import opened Lines

  // ---------------------------------------------------------------------------
  // The termination tests

  /** Line `j` of `block` is an end directive carrying `name`. */
  predicate NamedEndAt(block: seq<Line>, j: nat, name: string)
    requires j < |block|
  {
    var d := block[j].FirstDirective();
    d.Some? && d.value.End? && d.value.endName == Some(name)
  }

  /** Some line after the first carries an end directive named `name`. */
  predicate HasNamedEnd(block: seq<Line>, name: string) {
    exists j :: 1 <= j < |block| && NamedEndAt(block, j, name)
  }

  /**
   * Line `l` ends the block of start `s` whose own line has indentation
   * `startIndent`: an unnamed end at the same indentation, an end that closes
   * this or an enclosing block, another start at the same indentation, or a
   * non-empty line that is indented less.
   */
  predicate Closes(s: Directive, startIndent: int, l: Line)
    requires s.Start?
  {
    var d := l.FirstDirective();
    (d.Some? && d.value.End? && d.value.endName.None? && l.indent == startIndent)
    || (d.Some? && d.value.End? && d.value.startLine <= s.line)
    || (d.Some? && d.value.Start? && l.indent == startIndent)
    || (l.indent < startIndent && l.Truthy())
  }

  // ---------------------------------------------------------------------------
  // The scans

  /** The first line at or after `j` that is an end named `name`. */
  function ScanNamedEnd(block: seq<Line>, name: string, j: nat): (r: Option<nat>)
    requires j <= |block|
    ensures r.Some? ==> j <= r.value < |block| && NamedEndAt(block, r.value, name)
    ensures r.Some? ==> forall k :: j <= k < r.value ==> !NamedEndAt(block, k, name)
    ensures r.None? ==> forall k :: j <= k < |block| ==> !NamedEndAt(block, k, name)
    decreases |block| - j
  {
    if j == |block| then None
    else if NamedEndAt(block, j, name) then Some(j)
    else ScanNamedEnd(block, name, j + 1)
  }

  /** The first line at or after `j` that closes the block, or `|block|`. */
  function ScanClose(s: Directive, block: seq<Line>, j: nat): (r: nat)
    requires s.Start? && 1 <= j <= |block|
    ensures j <= r <= |block|
    ensures r < |block| ==> Closes(s, block[0].indent, block[r])
    ensures forall k :: j <= k < r ==> !Closes(s, block[0].indent, block[k])
    decreases |block| - j
  {
    if j == |block| then |block|
    else if Closes(s, block[0].indent, block[j]) then j
    else ScanClose(s, block, j + 1)
  }

  /**
   * The index, within `block` (which begins with the line of start `s`), of
   * the line that ends the block; `|block|` when the block runs to the end.
   * A start linked to a named end stops at the first end of that name, if one
   * follows, and ignores every other rule; otherwise the first line that
   * `Closes` the block ends it.
   */
  function FindMatchingEnd(s: Directive, block: seq<Line>): (r: nat)
    requires s.Start? && |block| >= 1
    ensures 1 <= r <= |block|
    ensures s.hasNamedEnd && HasNamedEnd(block, s.name) ==>
              r < |block| && NamedEndAt(block, r, s.name)
              && forall k :: 1 <= k < r ==> !NamedEndAt(block, k, s.name)
    ensures !(s.hasNamedEnd && HasNamedEnd(block, s.name)) ==>
              (r < |block| ==> Closes(s, block[0].indent, block[r]))
              && forall k :: 1 <= k < r ==> !Closes(s, block[0].indent, block[k])
  {
    var named := if s.hasNamedEnd then ScanNamedEnd(block, s.name, 1) else None;
    if named.Some? then named.value else ScanClose(s, block, 1)
  }

  /**
   * A matching unnamed end: with nothing in between that ends the block early
   * (no end, no start at the block's indentation, no less indented text), an
   * unnamed `@` at the start's indentation ends the block, unless the start
   * is linked to a named end that follows.
   */
  lemma UnnamedEndCloses(s: Directive, block: seq<Line>, k: nat)
    requires s.Start? && 1 <= k < |block|
    requires !s.hasNamedEnd || !HasNamedEnd(block, s.name)
    requires block[k].FirstDirective().Some? && block[k].FirstDirective().value.End?
    requires block[k].FirstDirective().value.endName.None?
    requires block[k].indent == block[0].indent
    requires forall i :: 1 <= i < k ==> !Closes(s, block[0].indent, block[i])
    ensures FindMatchingEnd(s, block) == k
  {
    assert Closes(s, block[0].indent, block[k]);
  }

  /**
   * A named end that points at this start or an enclosing one (its
   * `startLine` is at or before the start's line) ends the block no later
   * than where it stands: one named end closes every unclosed start nested
   * inside the block it names.
   */
  lemma {:induction false} NamedEndClosesNested(s: Directive, block: seq<Line>, k: nat)
    requires s.Start? && 1 <= k < |block|
    requires !s.hasNamedEnd
    requires block[k].FirstDirective().Some? && block[k].FirstDirective().value.End?
    requires block[k].FirstDirective().value.startLine <= s.line
    ensures FindMatchingEnd(s, block) <= k
  {
    assert Closes(s, block[0].indent, block[k]);
  }

  /**
   * A start linked to a named end skips every other closer, even an unnamed
   * end at its own indentation, and stops at the first end carrying its name.
   */
  lemma NamedEndOverrides(s: Directive, block: seq<Line>, k: nat)
    requires s.Start? && s.hasNamedEnd && 1 <= k < |block|
    requires NamedEndAt(block, k, s.name)
    requires forall i :: 1 <= i < k ==> !NamedEndAt(block, i, s.name)
    ensures FindMatchingEnd(s, block) == k
  {
    assert HasNamedEnd(block, s.name);
  }

  // ---------------------------------------------------------------------------
  // Linking a named end to its start

  /** `d` is a start directive (of any of the three kinds) with name `name`. */
  predicate IsStartNamed(d: Directive, name: string) {
    d.Start? && d.name == name
  }

  /** The line carries, among all its directives, a start named `name`. */
  predicate CarriesStart(l: Line, name: string) {
    exists i :: 0 <= i < |l.directives| && IsStartNamed(l.directives[i], name)
  }

  /** The first of `ds`, from position `m` on, that is a start named `name`. */
  function FirstNamedStart(ds: seq<Directive>, name: string, m: nat): (r: Option<nat>)
    requires m <= |ds|
    ensures r.Some? ==> m <= r.value < |ds| && IsStartNamed(ds[r.value], name)
    ensures r.Some? ==> forall i :: m <= i < r.value ==> !IsStartNamed(ds[i], name)
    ensures r.None? ==> forall i :: m <= i < |ds| ==> !IsStartNamed(ds[i], name)
    decreases |ds| - m
  {
    if m == |ds| then None
    else if IsStartNamed(ds[m], name) then Some(m)
    else FirstNamedStart(ds, name, m + 1)
  }

  /**
   * Scanning the lines before `upto` backwards, the nearest one carrying a
   * start named `name`, and the position of the first such start on it.
   */
  function NearestNamedStart(lines: seq<Line>, name: string, upto: nat): (r: Option<(nat, nat)>)
    requires upto <= |lines|
    ensures r.Some? ==> var (q, m) := r.value;
              q < upto && m < |lines[q].directives| && IsStartNamed(lines[q].directives[m], name)
              && (forall i :: 0 <= i < m ==> !IsStartNamed(lines[q].directives[i], name))
              && forall q' :: q < q' < upto ==> !CarriesStart(lines[q'], name)
    ensures r.None? ==> forall q' :: 0 <= q' < upto ==> !CarriesStart(lines[q'], name)
    decreases upto
  {
    if upto == 0 then None
    else
      var ds := lines[upto - 1].directives;
      var m := FirstNamedStart(ds, name, 0);
      if m.Some? then Some((upto - 1, m.value))
      else NearestNamedStart(lines, name, upto - 1)
  }

  /** Where Python's slice `lines[:stop]` ends in a list of `len` lines. */
  function SliceStop(stop: int, len: nat): (r: nat)
    ensures r <= len
    ensures 0 <= stop <= len ==> r == stop
    ensures stop > len ==> r == len
    ensures stop < 0 ==> r == if len + stop < 0 then 0 else len + stop
  {
    if stop < 0 then (if len + stop < 0 then 0 else len + stop)
    else if stop > len then len
    else stop
  }

  /** `lines` with directive `m` of line `q` replaced by `d`. */
  function SetDirective(lines: seq<Line>, q: nat, m: nat, d: Directive): seq<Line>
    requires q < |lines| && m < |lines[q].directives|
  {
    lines[q := lines[q].(directives := lines[q].directives[m := d])]
  }

  /**
   * After linking: a start flagged with a named end, followed in the block
   * by an end carrying its name, ends exactly at the first such end.
   */
  lemma LinkedStartEndsAtNamedEnd(lines: seq<Line>, q: nat, p: nat, s: Directive)
    requires q < p < |lines|
    requires s.Start? && s.hasNamedEnd
    requires NamedEndAt(lines, p, s.name)
    requires forall i :: q < i < p ==> !NamedEndAt(lines, i, s.name)
    ensures FindMatchingEnd(s, lines[q..]) == p - q
  {
    var block := lines[q..];
    assert NamedEndAt(block, p - q, s.name);
    forall i | 1 <= i < p - q ensures !NamedEndAt(block, i, s.name) {
      assert block[i] == lines[q + i];
      assert !NamedEndAt(lines, q + i, s.name);
    }
    NamedEndOverrides(s, block, p - q);
  }
}
