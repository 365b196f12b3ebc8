/**
 * The data the directive engine works on: lines of a document, the directives
 * attached to them, their processing priorities, the keyword table, and the
 * soft errors a directive can record.
 */
module Lines {
  import opened Wrappers

  /** Whether a woven line is documentation text or source code. */
  datatype LineType = DocLine | CodeLine

  /** The three block-starting directives: `@start`, `@rstart` and `@cstart`. */
  datatype StartKind = PlainStart | RStart | CStart

  /**
   * One directive, with the arguments its recognition already parsed.
   * `line` is the directive's line number (0-based, as the reader assigns it);
   * `name` is the raw text between the parentheses.
   */
  datatype Directive =
    | Start(kind: StartKind, line: int, name: string, hasNamedEnd: bool)
    | End(line: int, endName: Option<string>, startLine: int)
    | If(line: int, name: string)
    | Fi(line: int, name: string)
    | Define(line: int, name: string)
    | Enifed(line: int, name: string)
    | Subst(line: int, name: string)
    | Include(line: int, name: string)
    | RInclude(line: int, name: string)
    | Code(line: int)
    | Edoc(line: int)
    | Ignore(line: int)
    | Indent(line: int, delta: int)

  /** A freshly recognised end directive: `@` (no name) or `@(name)`. */
  function NewEnd(line: int, name: Option<string>): (d: Directive)
    ensures d.End? && d.line == line && d.endName == name
    ensures d.startLine == d.line
  {
    End(line, name, line)
  }

  /**
   * One line of the document. `index` is the line's original position,
   * `indent` its current indentation.
   */
  datatype Line = Line(text: string, indent: int, index: int, kind: LineType, directives: seq<Directive>)
  {
    /** A line is true in a boolean context exactly when its text is not empty. */
    predicate Truthy() {
      text != []
    }

    /** The line's directive: the first one attached to it. */
    function FirstDirective(): Option<Directive> {
      if directives == [] then None else Some(directives[0])
    }

    /** A clone with its indentation changed by `delta`. */
    function Shifted(delta: int): Line {
      this.(indent := indent + delta)
    }

    /** A line "like" this one: same position, new text, no directives. */
    function Like(t: string): Line {
      this.(text := t, directives := [])
    }
  }

  /** The line clones with every indentation changed by `delta`. */
  function ShiftAll(block: seq<Line>, delta: int): (r: seq<Line>)
    ensures |r| == |block|
    ensures forall i :: 0 <= i < |block| ==>
              r[i].indent == block[i].indent + delta && r[i] == block[i].(indent := r[i].indent)
  {
    seq(|block|, i requires 0 <= i < |block| => block[i].Shifted(delta))
  }

  /** Shifting by `a` and then by `b` is shifting by `a + b`; shifting by 0 changes nothing. */
  lemma ShiftAllCompose(block: seq<Line>, a: int, b: int)
    ensures ShiftAll(ShiftAll(block, a), b) == ShiftAll(block, a + b)
    ensures ShiftAll(block, 0) == block
  {
  }

  /** The soft errors directives record; weaving goes on after each. */
  datatype ErrorKind =
    | EmptyBlock(block: string)
    | NoFi(token: string)
    | NoEnifed(macro: string)
    | NoMacro(macro: string)
    | NoTextBlock(block: string)

  datatype Error = Error(line: int, kind: ErrorKind)

  // ---------------------------------------------------------------------------
  // Priorities and the keyword table

  /** Processing priority: directives with a lower one are processed earlier. */
  function Priority(d: Directive): int {
    match d
    case Define(_, _) => 1
    case Subst(_, _) => 2
    case If(_, _) => 4
    case Start(_, _, _, _) => 5
    case _ => 10
  }

  /**
   * Macros are defined before they are substituted, substitution happens
   * before conditionals are resolved, conditionals before blocks are cut out,
   * and every other directive comes last.
   */
  lemma PriorityOrder(a: Directive, b: Directive)
    ensures a.Define? && !b.Define? ==> Priority(a) < Priority(b)
    ensures a.Subst? && !(b.Define? || b.Subst?) ==> Priority(a) < Priority(b)
    ensures a.If? && !(b.Define? || b.Subst? || b.If?) ==> Priority(a) < Priority(b)
    ensures a.Start? && !(b.Define? || b.Subst? || b.If? || b.Start?) ==> Priority(a) < Priority(b)
    ensures !(a.Define? || a.Subst? || a.If? || a.Start?) ==> Priority(a) == 10
  {
  }

  /** The directive classes, as named by the keyword table. */
  datatype Kind =
    | KStart | KRStart | KCStart | KEdoc | KEnd | KInclude | KCode | KIgnore
    | KIndent | KIf | KFi | KDefine | KEnifed | KSubst | KRInclude

  /** The class a directive value belongs to. */
  function KindOf(d: Directive): Kind {
    match d
    case Start(k, _, _, _) => (match k case PlainStart => KStart case RStart => KRStart case CStart => KCStart)
    case End(_, _, _) => KEnd
    case If(_, _) => KIf
    case Fi(_, _) => KFi
    case Define(_, _) => KDefine
    case Enifed(_, _) => KEnifed
    case Subst(_, _) => KSubst
    case Include(_, _) => KInclude
    case RInclude(_, _) => KRInclude
    case Code(_) => KCode
    case Edoc(_) => KEdoc
    case Ignore(_) => KIgnore
    case Indent(_, _) => KIndent
  }

  /** The keyword table: keyword to directive class. */
  function DirectiveClass(keyword: string): Option<Kind> {
    if keyword == "start" then Some(KStart)
    else if keyword == "rstart" then Some(KRStart)
    else if keyword == "cstart" then Some(KCStart)
    else if keyword == "edoc" then Some(KEdoc)
    else if keyword == "end" then Some(KEnd)
    else if keyword == "include" then Some(KInclude)
    else if keyword == "code" then Some(KCode)
    else if keyword == "ignore" then Some(KIgnore)
    else if keyword == "indent" then Some(KIndent)
    else if keyword == "if" then Some(KIf)
    else if keyword == "fi" then Some(KFi)
    else if keyword == "define" then Some(KDefine)
    else if keyword == "enifed" then Some(KEnifed)
    else if keyword == "subst" then Some(KSubst)
    else if keyword == "rinclude" then Some(KRInclude)
    else None
  }

  /** The keyword under which the table lists a class. */
  function Keyword(k: Kind): string {
    match k
    case KStart => "start"
    case KRStart => "rstart"
    case KCStart => "cstart"
    case KEdoc => "edoc"
    case KEnd => "end"
    case KInclude => "include"
    case KCode => "code"
    case KIgnore => "ignore"
    case KIndent => "indent"
    case KIf => "if"
    case KFi => "fi"
    case KDefine => "define"
    case KEnifed => "enifed"
    case KSubst => "subst"
    case KRInclude => "rinclude"
  }

  /** Every class has exactly one keyword in the table, and nothing else is listed. */
  lemma DirectiveTableComplete(k: Kind, w: string)
    ensures DirectiveClass(Keyword(k)) == Some(k)
    ensures DirectiveClass(w) == Some(k) ==> w == Keyword(k)
  {
  }

  /**
   * Every directive value is recognised by exactly one keyword of the table:
   * the keyword of its class, which maps back to that class.
   */
  lemma DirectiveHasKeyword(d: Directive, w: string)
    ensures DirectiveClass(Keyword(KindOf(d))) == Some(KindOf(d))
    ensures DirectiveClass(w) == Some(KindOf(d)) <==> w == Keyword(KindOf(d))
  {
    DirectiveTableComplete(KindOf(d), w);
  }
}
