/**
 * What each directive does to the document when it is processed. A
 * directive is processed inside a block, a list of lines it edits in place
 * (`LineList`), and it reads or updates the document's macro table, its
 * tokens, its compiled blocks and sub-documents, the names of the blocks
 * included so far and the errors recorded so far (`Document`).
 */
module Weaver {
  import opened Wrappers
  import opened Text
  import opened Lines
  import opened Boundary
  import opened Blocks
  import opened Macros

  /** A list of lines that directives edit in place. */
  class LineList {
    var items: seq<Line>

    constructor (items: seq<Line>)
      ensures this.items == items
    {
      this.items := items;
    }
  }

  /**
   * The parts of a document the directives use: its lines, the macro table,
   * the tokens that switch `@if` blocks on, the compiled text blocks of this
   * document and of the sub-documents it can include from, the names of the
   * blocks included so far, and the soft errors recorded so far.
   */
  class Document {
    var lines: LineList
    var macros: map<string, Macro>
    var tokens: set<string>
    var compiledBlocks: map<string, seq<Line>>
    var subdocs: map<string, map<string, seq<Line>>>
    var blocksIncluded: set<string>
    var errors: seq<Error>

    constructor (lines: seq<Line>, tokens: set<string>,
                 compiledBlocks: map<string, seq<Line>>,
                 subdocs: map<string, map<string, seq<Line>>>)
      ensures fresh(this.lines) && this.lines.items == lines
      ensures this.tokens == tokens && this.compiledBlocks == compiledBlocks && this.subdocs == subdocs
      ensures macros == map[] && blocksIncluded == {} && errors == []
    {
      this.lines := new LineList(lines);
      this.tokens := tokens;
      this.compiledBlocks := compiledBlocks;
      this.subdocs := subdocs;
      macros := map[];
      blocksIncluded := {};
      errors := [];
    }

    /** Records a soft error; weaving goes on. */
    method AddError(line: int, kind: ErrorKind)
      modifies this`errors
      ensures errors == old(errors) + [Error(line, kind)]
    {
      errors := errors + [Error(line, kind)];
    }
  }

  // ---------------------------------------------------------------------------
  // Searching forward for a partner directive

  /** The directive that closes a directive searching forward in its block. */
  datatype Partner = FiOf(token: string) | EnifedOf(macro: string) | AnyEdoc

  /** The line's directive (its first one) is the partner `p`. */
  predicate IsPartner(l: Line, p: Partner) {
    var d := l.FirstDirective();
    d.Some? &&
    match p
    case FiOf(t) => d.value.Fi? && d.value.name == t
    case EnifedOf(m) => d.value.Enifed? && d.value.name == m
    case AnyEdoc => d.value.Edoc?
  }

  /** The first line at or after `from` that is the partner `p`. */
  function FindPartner(block: seq<Line>, from: nat, p: Partner): (r: Option<nat>)
    ensures r.Some? ==> from <= r.value < |block| && IsPartner(block[r.value], p)
    ensures r.Some? ==> forall k :: from <= k < r.value ==> !IsPartner(block[k], p)
    ensures r.None? ==> forall k :: from <= k < |block| ==> !IsPartner(block[k], p)
    decreases |block| - from
  {
    if from >= |block| then None
    else if IsPartner(block[from], p) then Some(from)
    else FindPartner(block, from + 1, p)
  }

  /**
   * The loop every partner search runs: the first `j` at or after `from`
   * where `block[j]` is the partner, or `|block|` when there is none.
   */
  method SearchPartner(block: seq<Line>, from: nat, p: Partner) returns (j: nat)
    ensures from <= j
    ensures j < |block| ==> FindPartner(block, from, p) == Some(j)
    ensures j >= |block| ==> FindPartner(block, from, p) == None
  {
    j := from;
    while j < |block| && !IsPartner(block[j], p)
      invariant from <= j
      invariant forall k :: from <= k < j && k < |block| ==> !IsPartner(block[k], p)
      decreases |block| - j
    {
      j := j + 1;
    }
    PartnerFound(block, from, p, j);
  }

  /** A `j` that no earlier line from `from` on passes, and that is the partner or past the end, is the search's answer. */
  lemma {:induction false} PartnerFound(block: seq<Line>, from: nat, p: Partner, j: nat)
    requires from <= j
    requires forall k :: from <= k < j && k < |block| ==> !IsPartner(block[k], p)
    requires j < |block| ==> IsPartner(block[j], p)
    ensures j < |block| ==> FindPartner(block, from, p) == Some(j)
    ensures j >= |block| ==> FindPartner(block, from, p) == None
    decreases |block| - from
  {
    if from < |block| && !IsPartner(block[from], p) {
      PartnerFound(block, from + 1, p, j);
    }
  }

  // ---------------------------------------------------------------------------
  // Block boundaries: @start, @rstart, @cstart and the end directive

  /** `@start(name)`: the whole block, from the start line to its end, disappears. */
  method ProcessStart(s: Directive, block: LineList, index: nat)
    requires s.Start? && index < |block.items|
    modifies block
    ensures var end := FindMatchingEnd(s, old(block.items)[index..]);
            |block.items| == |old(block.items)| - end
            && block.items == old(block.items)[..index] + old(block.items)[index + end..]
  {
    var end := FindMatchingEnd(s, block.items[index..]);
    block.items := block.items[..index] + block.items[index + end..];
  }

  /**
   * `@rstart(name)` and `@cstart(name)`: the block, from the start line to
   * its end, is replaced by one reference line `<<name>>` in the start line's
   * place.
   */
  method ProcessRStart(s: Directive, block: LineList, index: nat)
    requires s.Start? && index < |block.items|
    modifies block
    ensures var end := FindMatchingEnd(s, old(block.items)[index..]);
            |block.items| == |old(block.items)| - end + 1
            && block.items == old(block.items)[..index] + [old(block.items)[index].Like("<<" + s.name + ">>")]
                           + old(block.items)[index + end..]
  {
    var end := FindMatchingEnd(s, block.items[index..]);
    var line := block.items[index];
    block.items := block.items[..index] + [line.Like("<<" + s.name + ">>")] + block.items[index + end..];
  }

  /**
   * The end directive at `lines[p].directives[k]`, if it is named, links
   * itself to the start it names: scanning the lines before the end's own
   * line number backwards, the first start of that name found is flagged as
   * having a named end, and the end remembers that start's line. An unnamed
   * end, or a name with no start before it, changes nothing.
   */
  method MatchEnd(lines: LineList, p: nat, k: nat)
    requires p < |lines.items| && k < |lines.items[p].directives|
    requires lines.items[p].directives[k].End?
    modifies lines
    ensures var e := old(lines.items)[p].directives[k];
            var found := if e.endName.None? then None
                         else NearestNamedStart(old(lines.items), e.endName.value, SliceStop(e.line, |old(lines.items)|));
            && (found.None? ==> lines.items == old(lines.items))
            && (found.Some? ==>
                  var s := old(lines.items)[found.value.0].directives[found.value.1];
                  var linked := SetDirective(old(lines.items), found.value.0, found.value.1, s.(hasNamedEnd := true));
                  lines.items == SetDirective(linked, p, k, e.(startLine := s.line)))
  {
    var e := lines.items[p].directives[k];
    if e.endName.None? {
      return;
    }
    var name := e.endName.value;
    var upto := SliceStop(e.line, |lines.items|);
    var q := upto;
    // the lines before `q` are still to be scanned, backwards
    while q > 0
      invariant q <= upto
      invariant NearestNamedStart(lines.items, name, upto) == NearestNamedStart(lines.items, name, q)
      decreases q
    {
      var ds := lines.items[q - 1].directives;
      var m := 0;
      while m < |ds|
        invariant m <= |ds|
        invariant FirstNamedStart(ds, name, 0) == FirstNamedStart(ds, name, m)
        decreases |ds| - m
      {
        var d := ds[m];
        if d.Start? && d.name == name {
          var linked := SetDirective(lines.items, q - 1, m, d.(hasNamedEnd := true));
          lines.items := SetDirective(linked, p, k, e.(startLine := d.line));
          return;
        }
        m := m + 1;
      }
      q := q - 1;
    }
  }

  /**
   * `@`, `@fi`, `@enifed`, `@edoc` and `@ignore` take only their own line out
   * of the block.
   */
  method DeleteLine(block: LineList, index: nat)
    requires index < |block.items|
    modifies block
    ensures |block.items| == |old(block.items)| - 1
    ensures block.items == old(block.items)[..index] + old(block.items)[index + 1..]
  {
    block.items := block.items[..index] + block.items[index + 1..];
  }

  // ---------------------------------------------------------------------------
  // Conditionals and macros

  /**
   * `@if(token)`: without a matching `@fi(token)` later in the block, an error
   * and no change. Otherwise, when the token is set, only the `@if` line goes;
   * when it is not, everything from the `@if` line up to (not including) the
   * `@fi` line goes.
   */
  method ProcessIf(d: Directive, doc: Document, block: LineList, index: nat)
    requires d.If?
    modifies doc`errors, block
    ensures var fi := FindPartner(old(block.items), index + 1, FiOf(d.name));
            && (fi.None? ==> block.items == old(block.items)
                             && doc.errors == old(doc.errors) + [Error(d.line, NoFi(d.name))])
            && (fi.Some? ==> doc.errors == old(doc.errors))
            && (fi.Some? && d.name in doc.tokens ==>
                  block.items == old(block.items)[..index] + old(block.items)[index + 1..])
            && (fi.Some? && d.name !in doc.tokens ==>
                  block.items == old(block.items)[..index] + old(block.items)[fi.value..])
  {
    var j := SearchPartner(block.items, index + 1, FiOf(d.name));
    if j >= |block.items| {
      doc.AddError(d.line, NoFi(d.name));
      return;
    }
    if d.name in doc.tokens {
      block.items := block.items[..index] + block.items[index + 1..];
    } else {
      block.items := block.items[..index] + block.items[j..];
    }
  }

  /**
   * An `@if` whose token is not set, followed by the `@fi` it found: once
   * the `@fi` line is processed too, the whole range from `@if` to `@fi`,
   * both included, is gone.
   */
  lemma IfDroppedThenFi(items: seq<Line>, index: nat, j: nat)
    requires index < j < |items|
    ensures var after := items[..index] + items[j..];
            index < |after| && after[index] == items[j]
            && after[..index] + after[index + 1..] == items[..index] + items[j + 1..]
  {
    var after := items[..index] + items[j..];
    assert after[index + 1..] == items[j + 1..];
  }

  /**
   * An `@if` whose token is set, followed by the `@fi` it found: once the
   * `@fi` line is processed too, exactly the two marker lines are gone and
   * the lines between them are kept.
   */
  lemma IfKeptThenFi(items: seq<Line>, index: nat, j: nat)
    requires index < j < |items|
    ensures var after := items[..index] + items[index + 1..];
            j - 1 < |after| && after[j - 1] == items[j]
            && after[..j - 1] + after[j..] == items[..index] + items[index + 1..j] + items[j + 1..]
  {
    var after := items[..index] + items[index + 1..];
    assert after[..j - 1] == items[..index] + items[index + 1..j];
    assert after[j..] == items[j + 1..];
  }

  /**
   * The name a `@define` or `@include` argument starts with: the text before
   * the first comma, stripped.
   */
  function FirstArg(arg: string): (r: string)
    ensures ',' !in r
    ensures ',' !in arg ==> r == Strip(arg)
    ensures ',' in arg ==> r == Strip(arg[..IndexOf(arg, ',')])
  {
    var first := Split(arg, ',')[0];
    assert forall i :: 0 <= i < |Strip(first)| ==> Strip(first)[i] == first[LeadingSpaces(first) + i];
    Strip(first)
  }

  /**
   * `@define(name, text)`: the inline macro `name` stands for the stripped
   * text after the first comma (anything after a second comma is dropped).
   * `@define(name)`: the block macro `name` stands for the lines between the
   * `@define` line and the next `@enifed(name)`, or, without one, an error.
   * The block itself is not changed.
   */
  method ProcessDefine(d: Directive, doc: Document, block: LineList, index: nat)
    requires d.Define?
    modifies doc`macros, doc`errors
    ensures var args := Split(d.name, ',');
            var name := FirstArg(d.name);
            var enifed := FindPartner(block.items, index + 1, EnifedOf(name));
            && (|args| > 1 ==> doc.macros == old(doc.macros)[name := InlineMacro(Strip(args[1]))]
                               && doc.errors == old(doc.errors))
            && (|args| == 1 && enifed.None? ==>
                  doc.macros == old(doc.macros)
                  && doc.errors == old(doc.errors) + [Error(d.line, NoEnifed(name))])
            && (|args| == 1 && enifed.Some? ==>
                  doc.macros == old(doc.macros)[name := BlockMacro(block.items[index + 1..enifed.value])]
                  && doc.errors == old(doc.errors))
  {
    var args := Split(d.name, ',');
    var name := FirstArg(d.name);
    if |args| > 1 {
      doc.macros := doc.macros[name := InlineMacro(Strip(args[1]))];
      return;
    }
    var j := SearchPartner(block.items, index + 1, EnifedOf(name));
    if j >= |block.items| {
      doc.AddError(d.line, NoEnifed(name));
      return;
    }
    doc.macros := doc.macros[name := BlockMacro(block.items[index + 1..j])];
  }

  /**
   * `@subst(name)` at `block[index]`: an inline macro (or a computed
   * `__line__` value) replaces every `@subst(name)` in the line's text; a
   * block macro replaces the line with its lines, shifted to the line's
   * indentation and numbered from the line's index on; an unknown name is an
   * error and changes nothing.
   */
  method ProcessSubst(d: Directive, doc: Document, block: LineList, index: nat)
    requires d.Subst? && index < |block.items|
    requires !Lookup(doc.macros, d.name, d.line).Unevaluated?
    modifies doc`errors, block
    ensures var site := old(block.items)[index];
            var found := Lookup(doc.macros, d.name, d.line);
            && (found.Missing? ==> block.items == old(block.items)
                                   && doc.errors == old(doc.errors) + [Error(d.line, NoMacro(d.name))])
            && (found.Found? ==> doc.errors == old(doc.errors))
            && (found.Found? && found.macro.InlineMacro? ==>
                  block.items == old(block.items)[index := site.(text := ReplaceAll(site.text, SubstPattern(d.name), found.macro.text))])
            && (found.Found? && found.macro.BlockMacro? ==>
                  block.items == old(block.items)[..index] + Expansion(found.macro.lines, site) + old(block.items)[index + 1..])
  {
    var line := block.items[index];
    match Lookup(doc.macros, d.name, d.line)
    case Missing =>
      doc.AddError(d.line, NoMacro(d.name));
    case Found(InlineMacro(t)) =>
      block.items := block.items[index := line.(text := ReplaceAll(line.text, SubstPattern(d.name), t))];
    case Found(BlockMacro(ls)) =>
      block.items := block.items[..index] + Expansion(ls, line) + block.items[index + 1..];
  }

  // ---------------------------------------------------------------------------
  // Inclusion

  /**
   * The lines `@include(name)` or `@include(name, file)` inserts: the compiled
   * block `name` of this document, or of the sub-document `file` (stripped);
   * no lines when there is no such sub-document or block.
   */
  function Included(compiled: map<string, seq<Line>>, subdocs: map<string, map<string, seq<Line>>>,
                    arg: string): (r: seq<Line>)
    ensures var args := Split(arg, ',');
            && (|args| == 1 ==> r == if FirstArg(arg) in compiled then compiled[FirstArg(arg)] else [])
            && (|args| > 1 && Strip(args[1]) !in subdocs ==> r == [])
            && (|args| > 1 && Strip(args[1]) in subdocs ==>
                  r == if FirstArg(arg) in subdocs[Strip(args[1])] then subdocs[Strip(args[1])][FirstArg(arg)] else [])
  {
    var args := Split(arg, ',');
    var name := FirstArg(arg);
    var source := if |args| > 1 then
                    (if Strip(args[1]) in subdocs then subdocs[Strip(args[1])] else map[])
                  else compiled;
    if name in source then source[name] else []
  }

  /**
   * `@include(name[, file])` at `block[index]`: the block's name is recorded
   * as included whether or not it is found; a block that is missing or empty
   * is an error and changes nothing; otherwise the directive's line is
   * replaced by the block's lines, shifted to the line's indentation.
   */
  method ProcessInclude(d: Directive, doc: Document, block: LineList, index: nat)
    requires d.Include? || d.RInclude?
    requires Included(doc.compiledBlocks, doc.subdocs, d.name) != [] ==> index < |block.items|
    modifies doc`blocksIncluded, doc`errors, block
    ensures doc.blocksIncluded == old(doc.blocksIncluded) + {FirstArg(d.name)}
    ensures var lines := old(Included(doc.compiledBlocks, doc.subdocs, d.name));
            && (lines == [] ==> block.items == old(block.items)
                                && doc.errors == old(doc.errors) + [Error(d.line, NoTextBlock(FirstArg(d.name)))])
            && (lines != [] ==>
                  block.items == old(block.items)[..index] + ShiftAll(lines, old(block.items)[index].indent)
                                 + old(block.items)[index + 1..]
                  && doc.errors == old(doc.errors))
  {
    var name := FirstArg(d.name);
    doc.blocksIncluded := doc.blocksIncluded + {name};
    var lines := Included(doc.compiledBlocks, doc.subdocs, d.name);
    if lines == [] {
      doc.AddError(d.line, NoTextBlock(name));
      return;
    }
    var indent := block.items[index].indent;
    block.items := block.items[..index] + ShiftAll(lines, indent) + block.items[index + 1..];
  }

  /** The reStructuredText label and heading `@rinclude(name)` puts before the included lines. */
  function Scaffold(l: Line, name: string): (r: seq<Line>)
    ensures |r| == 5
    ensures forall i :: 0 <= i < 5 ==> r[i].directives == [] && r[i].indent == l.indent && r[i].index == l.index
    ensures r[1].text == ".. _" + name + ":" && r[3].text == "**<<" + name + ">>**"
    ensures r[0].text == r[2].text == r[4].text == ""
  {
    [l.Like(""), l.Like(".. _" + name + ":"), l.Like(""), l.Like("**<<" + name + ">>**"), l.Like("")]
  }

  /**
   * `@rinclude(name)`: `@include(name)`, then a label and a heading for the
   * block inserted in front of whatever now stands at the directive's place,
   * even when the block was not found (the directive's line then stays).
   */
  method ProcessRInclude(d: Directive, doc: Document, block: LineList, index: nat)
    requires d.RInclude? && index < |block.items|
    modifies doc`blocksIncluded, doc`errors, block
    ensures doc.blocksIncluded == old(doc.blocksIncluded) + {FirstArg(d.name)}
    ensures var l := old(block.items)[index];
            var lines := Included(doc.compiledBlocks, doc.subdocs, d.name);
            var body := if lines == [] then [l] else ShiftAll(lines, l.indent);
            && block.items == old(block.items)[..index] + Scaffold(l, d.name) + body + old(block.items)[index + 1..]
            && (lines == [] ==> doc.errors == old(doc.errors) + [Error(d.line, NoTextBlock(FirstArg(d.name)))])
            && (lines != [] ==> doc.errors == old(doc.errors))
  {
    var l := block.items[index];
    ghost var before := block.items;
    ProcessInclude(d, doc, block, index);
    ghost var lines := Included(doc.compiledBlocks, doc.subdocs, d.name);
    SpliceBefore(before, index, if lines == [] then [l] else ShiftAll(lines, l.indent), Scaffold(l, d.name));
    block.items := block.items[..index] + Scaffold(l, d.name) + block.items[index..];
  }

  /**
   * Inserting `front` at position `index` of a block whose line `index` was
   * replaced by `body` puts `front` right before `body`.
   */
  lemma SpliceBefore(before: seq<Line>, index: nat, body: seq<Line>, front: seq<Line>)
    requires index < |before|
    ensures before == before[..index] + [before[index]] + before[index + 1..]
    ensures var cur := before[..index] + body + before[index + 1..];
            index <= |cur| && cur[..index] + front + cur[index..] == before[..index] + front + body + before[index + 1..]
  {
    var cur := before[..index] + body + before[index + 1..];
    assert cur[..index] == before[..index];
    assert cur[index..] == body + before[index + 1..];
  }

  // ---------------------------------------------------------------------------
  // Code blocks and indentation

  /** A line shown as source code: indented four more columns and marked as code. */
  function AsCode(l: Line): (r: Line)
    ensures r.kind == CodeLine && r.indent == l.indent + 4
    ensures r.text == l.text && r.index == l.index && r.directives == l.directives
  {
    l.Shifted(4).(kind := CodeLine)
  }

  /** The lines shown as source code. */
  function MarkCode(ls: seq<Line>): (r: seq<Line>)
    ensures |r| == |ls| && forall i :: 0 <= i < |ls| ==> r[i] == AsCode(ls[i])
  {
    seq(|ls|, i requires 0 <= i < |ls| => AsCode(ls[i]))
  }

  /**
   * The three lines replacing `@code`: a `@subst(__codeprefix__)` line
   * carrying that substitution, the reStructuredText literal marker `::`,
   * and an empty line.
   */
  function CodePrefix(d: Directive, line: Line): (r: seq<Line>)
    ensures |r| == 3
    ensures r[0].text == "@subst(__codeprefix__)" && r[0].directives == [Subst(d.line, "__codeprefix__")]
    ensures r[1].text == "::" && r[1].directives == [] && r[2].text == "" && r[2].directives == []
    ensures forall i :: 0 <= i < 3 ==> r[i].indent == line.indent && r[i].index == line.index
  {
    [line.Like("@subst(__codeprefix__)").(directives := [Subst(d.line, "__codeprefix__")]),
     line.Like("::"),
     line.Like("")]
  }

  /**
   * `@code` at `block[index]`: the lines after it, up to the next `@edoc` or
   * the end of the block, become code lines; the `@code` line becomes the
   * code prefix; an empty line is appended at the very end of the block.
   */
  method ProcessCode(d: Directive, block: LineList, index: nat)
    requires d.Code? && index < |block.items|
    modifies block
    ensures var old_ := old(block.items);
            var e := FindPartner(old_, index + 1, AnyEdoc).GetOr(|old_|);
            index < e <= |old_| && |block.items| == |old_| + 3
            && block.items == old_[..index] + CodePrefix(d, old_[index]) + MarkCode(old_[index + 1..e])
                              + old_[e..] + [old_[index].Like("")]
  {
    var line := block.items[index];
    var j := MarkCodeRange(block, index);
    block.items := block.items[..index] + CodePrefix(d, line) + block.items[index + 1..];
    block.items := block.items + [line.Like("")];
  }

  /**
   * The loop of `@code`: the lines after `block[index]` up to the next
   * `@edoc` (or the block's end, `j`) become code lines, one at a time.
   */
  method MarkCodeRange(block: LineList, index: nat) returns (j: nat)
    requires index < |block.items|
    modifies block
    ensures index < j <= |old(block.items)| == |block.items|
    ensures j == FindPartner(old(block.items), index + 1, AnyEdoc).GetOr(|old(block.items)|)
    ensures block.items[..index] == old(block.items)[..index] && block.items[index] == old(block.items)[index]
    ensures block.items[index + 1..] == MarkCode(old(block.items)[index + 1..j]) + old(block.items)[j..]
  {
    ghost var before := block.items;
    j := index + 1;
    while j < |block.items| && !IsPartner(block.items[j], AnyEdoc)
      invariant index + 1 <= j <= |block.items| == |before|
      invariant forall k :: 0 <= k < |before| ==> block.items[k] == if index + 1 <= k < j then AsCode(before[k]) else before[k]
      invariant forall k :: index + 1 <= k < j ==> !IsPartner(before[k], AnyEdoc)
      decreases |block.items| - j
    {
      block.items := block.items[j := AsCode(block.items[j])];
      j := j + 1;
    }
    PartnerFound(before, index + 1, AnyEdoc, j);
    CodeLinesMarked(before, block.items, index, j);
  }

  /** After the marking loop: the lines between `index` and `j` are marked, the rest kept. */
  lemma CodeLinesMarked(before: seq<Line>, cur: seq<Line>, index: nat, j: nat)
    requires index < j <= |before| == |cur|
    requires forall k :: 0 <= k < |before| ==> cur[k] == if index + 1 <= k < j then AsCode(before[k]) else before[k]
    ensures cur[..index] == before[..index] && cur[index] == before[index]
    ensures cur[index + 1..] == MarkCode(before[index + 1..j]) + before[j..]
  {
    var rest := MarkCode(before[index + 1..j]) + before[j..];
    assert |cur[index + 1..]| == |rest|;
    forall k | 0 <= k < |rest| ensures cur[index + 1..][k] == rest[k] {
      if k < j - index - 1 {
        assert rest[k] == AsCode(before[index + 1 + k]);
      } else {
        assert rest[k] == before[index + 1 + k];
      }
    }
  }

  /**
   * `@indent delta` at `block[index]`: the directive's line goes and every
   * line after it is shifted by `delta`; past the end of the block, nothing
   * changes.
   */
  method ProcessIndent(d: Directive, block: LineList, index: nat)
    requires d.Indent?
    modifies block
    ensures index < |old(block.items)| ==>
              block.items == old(block.items)[..index] + ShiftAll(old(block.items)[index + 1..], d.delta)
    ensures index >= |old(block.items)| ==> block.items == old(block.items)
  {
    if index < |block.items| {
      block.items := block.items[..index] + ShiftAll(block.items[index + 1..], d.delta);
    }
  }

  // ---------------------------------------------------------------------------
  // Dispatch

  /**
   * Collecting a block at `doc.lines[index]`: a start directive yields its
   * name and lines, or records the empty-block error; every other directive
   * yields nothing.
   */
  method Collect(d: Directive, doc: Document, index: nat) returns (r: Option<(string, seq<Line>)>)
    requires index < |doc.lines.items|
    modifies doc`errors
    ensures !d.Start? ==> r.None? && doc.errors == old(doc.errors)
    ensures d.Start? ==>
              var c := if d.kind == CStart then CollectCStart(doc.lines.items, index, d)
                       else CollectStart(doc.lines.items, index, d);
              && (c.Failed? ==> r.None? && doc.errors == old(doc.errors) + [c.error])
              && (c.Block? ==> r == Some((c.name, c.lines)) && doc.errors == old(doc.errors))
  {
    if !d.Start? {
      return None;
    }
    var c := if d.kind == CStart then CollectCStart(doc.lines.items, index, d)
             else CollectStart(doc.lines.items, index, d);
    match c
    case Failed(e) =>
      doc.AddError(e.line, e.kind);
      r := None;
    case Block(name, lines) =>
      r := Some((name, lines));
  }

  /**
   * Processing directive `d` at `block[index]`: the operation its class
   * defines. Only `@define` touches the macro table, and it leaves the block
   * alone; only the include directives record included names; the classes
   * that only rearrange the block record no error, and their new block is
   * stated here class by class (the other classes' operations state theirs).
   */
  method Process(d: Directive, doc: Document, block: LineList, index: nat)
    requires index < |block.items|
    requires d.Subst? ==> !Lookup(doc.macros, d.name, d.line).Unevaluated?
    modifies doc`macros, doc`errors, doc`blocksIncluded, block
    ensures !d.Define? ==> doc.macros == old(doc.macros)
    ensures d.Define? ==> block.items == old(block.items)
    ensures !(d.Include? || d.RInclude?) ==> doc.blocksIncluded == old(doc.blocksIncluded)
    ensures IsLayout(d) ==> doc.errors == old(doc.errors)
    ensures d.End? || d.Fi? || d.Enifed? || d.Edoc? || d.Ignore? ==>
              block.items == old(block.items)[..index] + old(block.items)[index + 1..]
    ensures d.Start? && d.kind == PlainStart ==>
              var b := old(block.items);
              block.items == b[..index] + b[index + FindMatchingEnd(d, b[index..])..]
    ensures d.Start? && d.kind != PlainStart ==>
              var b := old(block.items);
              block.items == b[..index] + [b[index].Like("<<" + d.name + ">>")] + b[index + FindMatchingEnd(d, b[index..])..]
    ensures d.Code? ==>
              var b := old(block.items);
              var e := FindPartner(b, index + 1, AnyEdoc).GetOr(|b|);
              index < e <= |b|
              && block.items == b[..index] + CodePrefix(d, b[index]) + MarkCode(b[index + 1..e]) + b[e..] + [b[index].Like("")]
    ensures d.Indent? ==>
              block.items == old(block.items)[..index] + ShiftAll(old(block.items)[index + 1..], d.delta)
  {
    if IsLayout(d) {
      ProcessLayout(d, block, index);
    } else {
      ProcessLookup(d, doc, block, index);
    }
  }

  /**
   * Processing a directive that consults the document: the conditional, the
   * macro directives and the include directives. Only `@define` touches the
   * macro table, and it leaves the block alone; only the include directives
   * record included names.
   */
  method ProcessLookup(d: Directive, doc: Document, block: LineList, index: nat)
    requires !IsLayout(d) && index < |block.items|
    requires d.Subst? ==> !Lookup(doc.macros, d.name, d.line).Unevaluated?
    modifies doc`macros, doc`errors, doc`blocksIncluded, block
    ensures !d.Define? ==> doc.macros == old(doc.macros)
    ensures d.Define? ==> block.items == old(block.items)
    ensures !(d.Include? || d.RInclude?) ==> doc.blocksIncluded == old(doc.blocksIncluded)
  {
    if d.Include? || d.RInclude? {
      ProcessInclusion(d, doc, block, index);
    } else {
      ProcessMacroDirective(d, doc, block, index);
    }
  }

  /** `@include` or `@rinclude`: the macro table is left alone. */
  method ProcessInclusion(d: Directive, doc: Document, block: LineList, index: nat)
    requires (d.Include? || d.RInclude?) && index < |block.items|
    modifies doc`errors, doc`blocksIncluded, block
    ensures doc.blocksIncluded == old(doc.blocksIncluded) + {FirstArg(d.name)}
  {
    if d.Include? {
      ProcessInclude(d, doc, block, index);
    } else {
      ProcessRInclude(d, doc, block, index);
    }
  }

  /**
   * `@if`, `@define` or `@subst`: no included names are recorded, and only
   * `@define` touches the macro table, leaving the block alone.
   */
  method ProcessMacroDirective(d: Directive, doc: Document, block: LineList, index: nat)
    requires (d.If? || d.Define? || d.Subst?) && index < |block.items|
    requires d.Subst? ==> !Lookup(doc.macros, d.name, d.line).Unevaluated?
    modifies doc`macros, doc`errors, block
    ensures !d.Define? ==> doc.macros == old(doc.macros)
    ensures d.Define? ==> block.items == old(block.items)
  {
    if d.If? {
      ProcessIf(d, doc, block, index);
    } else if d.Define? {
      ProcessDefine(d, doc, block, index);
    } else {
      ProcessSubst(d, doc, block, index);
    }
  }

  /** The directives that only rearrange their block and look nothing up. */
  predicate IsLayout(d: Directive) {
    d.Start? || d.End? || d.Fi? || d.Enifed? || d.Edoc? || d.Ignore? || d.Code? || d.Indent?
  }

  /**
   * Processing a directive that only rearranges its block: the new block for
   * each class.
   */
  method ProcessLayout(d: Directive, block: LineList, index: nat)
    requires IsLayout(d) && index < |block.items|
    modifies block
    ensures d.End? || d.Fi? || d.Enifed? || d.Edoc? || d.Ignore? ==>
              block.items == old(block.items)[..index] + old(block.items)[index + 1..]
    ensures d.Start? && d.kind == PlainStart ==>
              var b := old(block.items);
              block.items == b[..index] + b[index + FindMatchingEnd(d, b[index..])..]
    ensures d.Start? && d.kind != PlainStart ==>
              var b := old(block.items);
              block.items == b[..index] + [b[index].Like("<<" + d.name + ">>")] + b[index + FindMatchingEnd(d, b[index..])..]
    ensures d.Code? ==>
              var b := old(block.items);
              var e := FindPartner(b, index + 1, AnyEdoc).GetOr(|b|);
              index < e <= |b|
              && block.items == b[..index] + CodePrefix(d, b[index]) + MarkCode(b[index + 1..e]) + b[e..] + [b[index].Like("")]
    ensures d.Indent? ==>
              block.items == old(block.items)[..index] + ShiftAll(old(block.items)[index + 1..], d.delta)
  {
    match d
    case Start(kind, _, _, _) =>
      if kind == PlainStart { ProcessStart(d, block, index); } else { ProcessRStart(d, block, index); }
    case End(_, _, _) => DeleteLine(block, index);
    case Fi(_, _) => DeleteLine(block, index);
    case Enifed(_, _) => DeleteLine(block, index);
    case Edoc(_) => DeleteLine(block, index);
    case Ignore(_) => DeleteLine(block, index);
    case Code(_) => ProcessCode(d, block, index);
    case Indent(_, _) => ProcessIndent(d, block, index);
  }
}
