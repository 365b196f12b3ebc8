/**
 * The macro table `@define` fills and `@subst` reads: inline macros are text,
 * block macros are lines. Two names are computed instead of stored; of them
 * this module covers `__line__` with an optional `+ k` or `- k`.
 */
module Macros {
  import opened Wrappers
  import opened Text
  import opened Lines

  datatype Macro = InlineMacro(text: string) | BlockMacro(lines: seq<Line>)

  /** The text `@subst(name)` that an inline substitution replaces. */
  function SubstPattern(name: string): (p: string)
    ensures p != []
  {
    "@subst(" + name + ")"
  }

  // ---------------------------------------------------------------------------
  // __line__ arithmetic

  const LineToken: string := "__line__"

  predicate IsBlank(c: char) {
    c == ' ' || c == '\t'
  }

  /** `s` without its leading blanks. */
  function DropBlanks(s: string): (r: string)
    ensures |r| <= |s|
    ensures r != [] ==> !IsBlank(r[0])
    ensures forall i :: 0 <= i < |s| - |r| ==> IsBlank(s[i])
  {
    if s != [] && IsBlank(s[0]) then DropBlanks(s[1..]) else s
  }

  /** The digits `s` starts with. */
  function DigitPrefix(s: string): (r: string)
    ensures |r| <= |s| && r == s[..|r|] && AllDigits(r)
    ensures |r| < |s| ==> !IsDigit(s[|r|])
  {
    if s != [] && IsDigit(s[0]) then [s[0]] + DigitPrefix(s[1..]) else []
  }

  /** A decimal literal Python accepts: digits, no leading zero unless just `0`. */
  predicate IsDecimalLiteral(s: string) {
    s != [] && AllDigits(s) && (s[0] == '0' ==> |s| == 1)
  }

  /**
   * The value of `@subst(name)` for a name starting with `__line__`, which
   * stands for the directive's line number plus one: `__line__`,
   * `__line__ + k` and `__line__ - k` with blanks around the operator. Any
   * other expression is outside the model and yields `None`.
   */
  function EvalLineExpr(name: string, line: int): Option<int>
    requires StartsWith(name, LineToken)
  {
    EvalOffset(name[|LineToken|..], line + 1)
  }

  /** The value of `base` followed by the text `tail`: nothing, `+ k` or `- k`. */
  function EvalOffset(tail: string, base: int): Option<int> {
    var rest := DropBlanks(tail);
    if rest == [] then Some(base)
    else if rest[0] != '+' && rest[0] != '-' then None
    else
      var operand := DropBlanks(rest[1..]);
      var digits := DigitPrefix(operand);
      if !IsDecimalLiteral(digits) || DropBlanks(operand[|digits|..]) != [] then None
      else
        var k := DecimalValue(digits);
        Some(if rest[0] == '+' then base + k else base - k)
  }

  /** A run of digits followed by a non-digit is read whole. */
  lemma {:induction false} DigitPrefixAll(s: string, tail: string)
    requires AllDigits(s)
    requires tail == [] || !IsDigit(tail[0])
    ensures DigitPrefix(s + tail) == s
    decreases |s|
  {
    if s != [] {
      assert (s + tail)[1..] == s[1..] + tail;
      DigitPrefixAll(s[1..], tail);
    } else {
      assert s + tail == tail;
    }
  }

  predicate AllBlank(s: string) {
    forall i :: 0 <= i < |s| ==> IsBlank(s[i])
  }

  lemma {:induction false} DropBlanksPrefix(b: string, x: string)
    requires AllBlank(b)
    requires x == [] || !IsBlank(x[0])
    ensures DropBlanks(b + x) == x
    decreases |b|
  {
    if b == [] {
      assert b + x == x;
    } else {
      assert (b + x)[1..] == b[1..] + x;
      DropBlanksPrefix(b[1..], x);
    }
  }

  /** One unfolding of `EvalOffset` for a tail holding an operator and a literal. */
  lemma EvalOffsetOperator(tail: string, base: int, op: char, operand: string, digits: string)
    requires DropBlanks(tail) != [] && DropBlanks(tail)[0] == op && (op == '+' || op == '-')
    requires DropBlanks(DropBlanks(tail)[1..]) == operand
    requires DigitPrefix(operand) == digits && IsDecimalLiteral(digits)
    requires DropBlanks(operand[|digits|..]) == []
    ensures EvalOffset(tail, base)
            == Some(if op == '+' then base + DecimalValue(digits) else base - DecimalValue(digits))
  {
  }

  /** A name made of `__line__` and a tail starts with `__line__`, and the tail follows it. */
  lemma TokenPrefix(tail: string)
    ensures StartsWith(LineToken + tail, LineToken)
    ensures (LineToken + tail)[|LineToken|..] == tail
  {
    assert (LineToken + tail)[..|LineToken|] == LineToken;
  }

  /**
   * `@subst(__line__ + k)` or `@subst(__line__ - k)` on line `line`, with any
   * blanks around the operator and after the number, stands for
   * `line + 1 + k` or `line + 1 - k`.
   */
  lemma {:induction false} LineOffset(line: int, b1: string, op: char, b2: string, k: nat, b3: string)
    requires op == '+' || op == '-'
    requires AllBlank(b1) && AllBlank(b2) && AllBlank(b3)
    ensures var name := LineToken + b1 + [op] + b2 + NatToDecimal(k) + b3;
            StartsWith(name, LineToken)
            && EvalLineExpr(name, line) == Some(if op == '+' then line + 1 + k else line + 1 - k)
  {
    var tail := b1 + ([op] + (b2 + (NatToDecimal(k) + b3)));
    assert LineToken + b1 + [op] + b2 + NatToDecimal(k) + b3 == LineToken + tail;
    TokenPrefix(tail);
    OffsetTail(line + 1, b1, op, b2, k, b3);
  }

  /** The arithmetic tail after `__line__`, evaluated against `base`. */
  lemma {:induction false} OffsetTail(base: int, b1: string, op: char, b2: string, k: nat, b3: string)
    requires op == '+' || op == '-'
    requires AllBlank(b1) && AllBlank(b2) && AllBlank(b3)
    ensures EvalOffset(b1 + ([op] + (b2 + (NatToDecimal(k) + b3))), base)
            == Some(if op == '+' then base + k else base - k)
  {
    var d := NatToDecimal(k);
    var operand := d + b3;
    var after := [op] + (b2 + operand);
    DropBlanksPrefix(b1, after);
    assert after[1..] == b2 + operand;
    DropBlanksPrefix(b2, operand);
    DigitPrefixAll(d, b3);
    assert operand[|d|..] == b3;
    DropBlanksPrefix(b3, []);
    assert b3 + [] == b3;
    DecimalRoundTrip(k);
    EvalOffsetOperator(b1 + after, base, op, operand, d);
  }

  /** `@subst(__line__)`, with trailing blanks, stands for `line + 1`. */
  lemma LineAlone(line: int, b: string)
    requires AllBlank(b)
    ensures StartsWith(LineToken + b, LineToken)
    ensures EvalLineExpr(LineToken + b, line) == Some(line + 1)
  {
    TokenPrefix(b);
    DropBlanksPrefix(b, []);
    assert b + [] == b;
  }

  // ---------------------------------------------------------------------------
  // Looking a name up

  /** What `@subst(name)` finds. */
  datatype Substitution =
    | Found(macro: Macro)
    | Missing        // not a computed name and not in the table
    | Unevaluated    // a `__line__` expression outside the modelled arithmetic

  /**
   * Names starting with `__line__` are computed (the number is inserted as
   * inline text); every other name is looked up in the table.
   */
  function Lookup(macros: map<string, Macro>, name: string, line: int): (r: Substitution)
    ensures !StartsWith(name, LineToken) ==>
              (r.Missing? <==> name !in macros) && (r.Found? ==> r.macro == macros[name])
    ensures StartsWith(name, LineToken) ==> !r.Missing?
    ensures StartsWith(name, LineToken) ==>
              (r.Found? <==> EvalLineExpr(name, line).Some?)
              && (r.Found? ==> r.macro == InlineMacro(IntToDecimal(EvalLineExpr(name, line).value)))
  {
    if StartsWith(name, LineToken) then
      match EvalLineExpr(name, line)
      case Some(v) => Found(InlineMacro(IntToDecimal(v)))
      case None => Unevaluated
    else if name !in macros then Missing
    else Found(macros[name])
  }

  /** The lines a block macro expands into at a `@subst` line `site`. */
  function Expansion(body: seq<Line>, site: Line): (r: seq<Line>)
    ensures |r| == |body|
    ensures forall j :: 0 <= j < |body| ==>
              r[j].text == body[j].text && r[j].directives == body[j].directives && r[j].kind == body[j].kind
              && r[j].indent == body[j].indent + site.indent && r[j].index == site.index + j
  {
    seq(|body|, j requires 0 <= j < |body| => body[j].Shifted(site.indent).(index := site.index + j))
  }

  /**
   * `@define(x, hello)` then a line `a @subst(x) b`, where `@subst(x)` occurs
   * only there: the line becomes `a hello b`.
   */
  lemma InlineSubstitution(a: string, name: string, b: string, value: string)
    requires forall i: nat :: i < |a| ==> !MatchAt(a + SubstPattern(name) + b, SubstPattern(name), i)
    requires !Occurs(b, SubstPattern(name))
    ensures ReplaceAll(a + SubstPattern(name) + b, SubstPattern(name), value) == a + value + b
  {
    ReplaceSingle(a, SubstPattern(name), b, value);
  }
}
