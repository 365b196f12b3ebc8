# antiweb directive engine, modelled in Dafny

antiweb weaves documentation out of source files. Comments in the source
carry directives (`@start(name)` … `@`, `@include(name)`, `@if(token)` …
`@fi(token)`, `@define`/`@subst` macros, `@code`/`@edoc` and so on). Each
directive either collects a named text block, links itself to a partner
directive, or rewrites the list of lines it sits in. This project models that
directive engine (`antiweb_lib/directives.py`) and proves what each directive
does to the lines and to the document.

Modules:

- `Wrappers` (`wrappers.dfy`): `Option`, standing for Python's `None`.
- `Text` (`text.dfy`): the Python string operations the engine uses:
  `strip`, `split`, `replace`, `startswith`, `str(int)`.
- `Lines` (`lines.dfy`): lines, directives with their parsed arguments,
  soft errors, priorities and the keyword table.
- `Boundary` (`boundary.dfy`): where a text block ends (`_find_matching_end`),
  and the backward search a named end uses to find its start.
- `Blocks` (`blocks.dfy`): collecting a block and normalising its
  indentation (`collect_block` of `@start` and `@cstart`).
- `Macros` (`macros.dfy`): the macro table, the `__line__` arithmetic and
  what a `@subst` finds.
- `Weaver` (`weaver.dfy`): the document and the block as mutable objects,
  and every directive's `process` and `match`, each as a method that
  changes them in place.

Directives are values: a `Directive` datatype with one constructor per
directive class. The `Line` class is modelled as a datatype with text,
indentation, original index, type (documentation or code) and directives.
A line's "directive" is the first one attached to it. A line is true in a
boolean context exactly when its text is non-empty. `like(text)` is a copy
with the new text and no directives. `clone().change_indent(d)` is a copy
with the indentation changed by `d`.

The block a directive edits (a Python list passed by reference) is a
`LineList` object with a `seq<Line>` field. The document is a `Document`
object with these fields:

- its lines;
- the macro table;
- the tokens;
- the compiled blocks of this document;
- the compiled blocks of the sub-documents it can include from;
- the set of included block names;
- the error list.

Each `process` method states the new block and the new document fields
exactly, as functions of the old ones. The functions it is stated with
(`FindMatchingEnd`, `FindPartner`, `Lookup`, `Included`, `Normalise`, …)
carry their own contracts and lemmas.

Behaviour that is easy to misread:

- `@if` with an unset token deletes the lines from `@if` up to, but not
  including, the `@fi`. The `@fi` line is removed later by its own
  processing. `Weaver.IfDroppedThenFi` shows that the two steps together
  remove the whole range, `@fi` included.
- `@code` appends its trailing empty line at the end of the whole block,
  not after the code range.
- `@include` records the block name as included before it looks the block
  up, so a name that is not found is recorded too.
- `@rinclude` inserts its label and heading after the include has run. On
  failure they stand in front of the unchanged directive line. The label
  and heading use the raw argument, including a `, file` part if there is one.

## Model

| member | source | states |
|---|---|---|
| Lines.NewEnd | antiweb_lib/directives.py:450-457 | a new end directive has the name it was given (none for a bare `@`) and a start line equal to its own line |
| Lines.PriorityOrder | antiweb_lib/directives.py:80 | `@define` is processed before every other kind, then `@subst`, then `@if`, then the start family; every other directive has the default priority 10 |
| Lines.DirectiveTableComplete | antiweb_lib/directives.py:938-954 | every directive class is listed under exactly one keyword, and a keyword maps back to the class it names |
| Lines.DirectiveHasKeyword | antiweb_lib/directives.py:938-954 | every directive's class has a keyword in the table, and that keyword is the only one naming the class |
| Lines.ShiftAll | antiweb_lib/directives.py:742 | cloning lines with a changed indentation keeps their number and order and every field except the indentation, which moves by `delta` |
| Lines.ShiftAllCompose | antiweb_lib/directives.py:930-933 | shifting twice is shifting by the sum; shifting by 0 changes nothing |
| Text.Strip | antiweb_lib/directives.py:577-578 | the stripped text is the contiguous part of the input left after leading and trailing whitespace; it neither starts nor ends with whitespace |
| Text.StripIdempotent | antiweb_lib/directives.py:577-578 | stripping twice is stripping once |
| Text.Split | antiweb_lib/directives.py:718-719 | `split(",")` yields at least one piece; no piece contains a comma; there is one piece exactly when the text has no comma; joining the pieces with commas gives back the text |
| Text.SplitJoin | antiweb_lib/directives.py:718-719 | splitting the comma-join of comma-free pieces gives back the pieces |
| Text.ReplaceSingle | antiweb_lib/directives.py:677 | replacing a pattern that occurs exactly once replaces that occurrence and nothing else |
| Text.ReplaceAbsent | antiweb_lib/directives.py:677 | replacing a pattern that does not occur leaves the text unchanged |
| Text.DecimalRoundTrip | antiweb_lib/directives.py:664 | the decimal text of a natural number reads back as that number |
| Boundary.ScanNamedEnd | antiweb_lib/directives.py:274-283 | the first line at or after `j` that is an end carrying the given name, or none when no such line exists |
| Boundary.ScanClose | antiweb_lib/directives.py:285-315 | the first line at or after `j` that closes the block by one of the four per-line rules, or the length of the block |
| Boundary.FindMatchingEnd | antiweb_lib/directives.py:269-315 | the end lies in `1..len(block)`. A start linked to a named end, with an end of its name further on, ends at the first such end. Otherwise it ends at the first line that closes it by any of the four rules, or at the end of the block. |
| Boundary.NamedEndOverrides | antiweb_lib/directives.py:274-283 | a linked start ignores every other closing rule and ends exactly at the first end carrying its name |
| Boundary.UnnamedEndCloses | antiweb_lib/directives.py:296-299 | for a start not flagged as having a named end, or with no end of its name in the block: an unnamed end at the start's indentation, with no earlier closer, is where the block ends |
| Boundary.NamedEndClosesNested | antiweb_lib/directives.py:301-304 | for a start not flagged as having a named end: an end whose start line is at or before this start's line ends the block no later than its own position |
| Boundary.FirstNamedStart | antiweb_lib/directives.py:466-467 | the first directive from position `m` on that is a start of the given name, or none |
| Boundary.NearestNamedStart | antiweb_lib/directives.py:464-469 | scanning backwards from line `upto`: the nearest line carrying a start of the given name, and that start's first position on it; none when no earlier line carries one |
| Boundary.SliceStop | antiweb_lib/directives.py:464 | where the Python slice `lines[:stop]` stops: within `0..len`; a stop in range is kept, any stop past the end stops at `len`, a negative one counts from the end and stops at 0 when it reaches before the start |
| Boundary.LinkedStartEndsAtNamedEnd | antiweb_lib/directives.py:274-283 | once linked, a start followed by an end carrying its name ends exactly at the first such end |
| Blocks.NonEmpty | antiweb_lib/directives.py:327 | a line is kept exactly when it is non-empty; the result is empty exactly when every line is empty |
| Blocks.MinIndent | antiweb_lib/directives.py:334-335 | the smallest indentation among the lines, attained by one of them |
| Blocks.Normalise | antiweb_lib/directives.py:334-336 | every line shifted by minus the smallest indentation of the non-empty lines; the result's least indented non-empty line is at column 0 |
| Blocks.LeftAlignedMinIsZero | antiweb_lib/directives.py:334-336 | in a normalised block, the smallest indentation of the non-empty lines is 0 |
| Blocks.NormaliseIdempotent | antiweb_lib/directives.py:334-336 | normalising a normalised block changes nothing |
| Blocks.CollectStart | antiweb_lib/directives.py:318-337 | fails with one empty-block error for the start's line exactly when every line strictly between start and end is empty; otherwise returns the start's name and exactly those lines, normalised; the document's lines are a read-only input |
| Blocks.CollectCStart | antiweb_lib/directives.py:413-425 | the `@start` result with one extra leading `@code` line carrying a `Code` directive, indexed one before the first line; the same error on failure |
| Macros.SubstPattern | antiweb_lib/directives.py:677 | the text `@subst(name)` is never empty |
| Macros.LineOffset | antiweb_lib/directives.py:663-665 | `__line__ + k` and `__line__ - k`, with blanks around the operator and after `k`, evaluate to the directive's line plus one, plus or minus `k` |
| Macros.LineAlone | antiweb_lib/directives.py:663-665 | `__line__` alone evaluates to the directive's line plus one |
| Macros.Lookup | antiweb_lib/directives.py:663-672 | a name starting with `__line__` is computed, never missing, and found as the decimal text of its value. Any other name is missing exactly when it is not in the table; otherwise it yields the table's entry. |
| Macros.Expansion | antiweb_lib/directives.py:680-684 | a block macro's lines keep their text, directives and type, are shifted by the site's indentation and numbered consecutively from the site's index |
| Macros.InlineSubstitution | antiweb_lib/directives.py:674-678 | a line containing `@subst(name)` once becomes the line with the macro's text in its place |
| Weaver.Document.AddError | antiweb_lib/directives.py:736-737 | recording an error appends it to the error list and changes nothing else |
| Weaver.FindPartner | antiweb_lib/directives.py:532-535 | the first line from `from` on whose directive is the partner, or none when no line is |
| Weaver.SearchPartner | antiweb_lib/directives.py:586-589 | the search loop returns the first partner's position, or a position past the end exactly when there is no partner |
| Weaver.ProcessStart | antiweb_lib/directives.py:341-350 | deletes exactly the lines from the start to its end, so the block shrinks by `end` |
| Weaver.ProcessRStart | antiweb_lib/directives.py:379-382 | replaces exactly that range by one `<<name>>` line in the start's place, so the block shrinks by `end - 1` |
| Weaver.MatchEnd | antiweb_lib/directives.py:460-469 | an unnamed end, or a named end with no start of that name before its line, changes nothing. Otherwise only two directives change: the nearest earlier start of that name is flagged as having a named end, and the end takes that start's line. |
| Weaver.DeleteLine | antiweb_lib/directives.py:472-474 | the directive's own line is removed and every other line stays in order |
| Weaver.ProcessIf | antiweb_lib/directives.py:531-545 | with no matching `@fi`: one error, block unchanged. With the token set: only the `@if` line goes. Otherwise the lines from `@if` up to, not including, the `@fi` go. |
| Weaver.IfDroppedThenFi | antiweb_lib/directives.py:500-501 | after a dropped `@if` and then its `@fi`, the range from `@if` to `@fi` is gone, both included |
| Weaver.IfKeptThenFi | antiweb_lib/directives.py:500-501 | after a kept `@if` and then its `@fi`, exactly the two marker lines are gone |
| Weaver.FirstArg | antiweb_lib/directives.py:577-578 | the name an argument list starts with: the text before the first comma, stripped (the whole argument, stripped, when there is no comma); it contains no comma |
| Weaver.ProcessDefine | antiweb_lib/directives.py:576-595 | with a comma, the name maps to the stripped second argument. Otherwise the name maps to the lines strictly between `@define` and its `@enifed`; with no `@enifed`, one error and an unchanged table. The block is never changed. |
| Weaver.ProcessSubst | antiweb_lib/directives.py:659-684 | an unknown macro: one error, block unchanged. Inline text replaces every `@subst(name)` in that one line. A block macro replaces that one line by its expansion. |
| Weaver.Included | antiweb_lib/directives.py:723-732 | the compiled block of that name, from this document without a file argument, from the named sub-document with one; no lines when either is missing |
| Weaver.ProcessInclude | antiweb_lib/directives.py:716-743 | the name is always recorded as included. A missing or empty block gives one error and an unchanged block. Otherwise the directive line is replaced by the block's lines shifted to its indentation. |
| Weaver.Scaffold | antiweb_lib/directives.py:781-785 | five directive-free lines at the site: empty, `.. _name:`, empty, `**<<name>>**`, empty |
| Weaver.ProcessRInclude | antiweb_lib/directives.py:777-785 | the include's effect, with the five scaffold lines in front of what now stands at the directive's place, whether or not the include succeeded |
| Weaver.AsCode | antiweb_lib/directives.py:858 | a code line is the same line indented four more columns and typed as code |
| Weaver.MarkCode | antiweb_lib/directives.py:852-858 | every line of the range becomes a code line, in order |
| Weaver.CodePrefix | antiweb_lib/directives.py:860-866 | three lines at the `@code` site: `@subst(__codeprefix__)` carrying that substitution, `::` and an empty line |
| Weaver.MarkCodeRange | antiweb_lib/directives.py:852-858 | the loop stops at the first `@edoc` after the `@code` line or at the block's end, and turns exactly the lines before that stop into code lines; the block keeps its length and every other line |
| Weaver.ProcessCode | antiweb_lib/directives.py:848-869 | the lines up to the next `@edoc` (or the block's end) become code lines. The `@code` line becomes the three-line prefix. One empty line is appended at the end of the block, which grows by three. |
| Weaver.ProcessIndent | antiweb_lib/directives.py:930-933 | the directive line goes and every later line of the block shifts by `delta`; past the end, nothing changes |
| Weaver.Collect | antiweb_lib/directives.py:108-125 | a start directive yields its collected block, or records its one error; any other directive yields nothing and records nothing; only the error list can change |
| Weaver.Process | antiweb_lib/directives.py:129-142 | processing any directive: only `@define` changes the macro table, and it leaves the block alone; only the include directives record names; the directives that only rearrange the block record no error. The new block for each end, `@fi`, `@enifed`, `@edoc` and `@ignore` (the line is removed), each start (its range removed, or replaced by a `<<name>>` line), `@code` and `@indent` |
| Weaver.ProcessLayout | antiweb_lib/directives.py:129-142 | for the directives that only rearrange their block, the new block of each class, as above |
| Weaver.ProcessLookup | antiweb_lib/directives.py:129-142 | for `@if`, `@define`, `@subst` and the include directives: only `@define` changes the macro table, and it leaves the block alone; only the include directives record names |
| Weaver.ProcessInclusion | antiweb_lib/directives.py:129-142 | `@include` and `@rinclude` record their first argument, stripped, as an included name |
| Weaver.ProcessMacroDirective | antiweb_lib/directives.py:129-142 | for `@if`, `@define` and `@subst`: only `@define` changes the macro table, and it leaves the block alone |

## Left out

- Recognising directives in a line with regular expressions: directives arrive already parsed, with their arguments.
- `Weaver.ProcessSubst` requires that a name starting with `__line__` is `__line__`, `__line__ + k` or `__line__ - k` (blanks allowed). General Python `eval` of any other expression is not modelled.
- `__line__` occurring twice in one name is not modelled; Python replaces every occurrence before evaluating.
- The `__file__` macro is not modelled; it is not defined in `antiweb_lib/directives.py`.
- The `Line` class is not part of this model: the line-number argument of `clone(n)` is not modelled, and a clone keeps every field of the original.
- Directive objects shared between several lines: directives are values here, so `End.match` updates the start and the end inside the document's line list only.
- The `Document` class is not part of this model. `get_compiled_block` and `get_subdoc` are maps from names to already compiled blocks, sub-documents are not loaded from files, and the priority-ordered processing loop is left out.
- Error messages are an `ErrorKind` datatype with the name they mention, not formatted strings.
- `Weaver.ProcessInclude` requires the directive's index to be inside the block only when a block was found; Python reads `block[index]` only then.
- `change-version.py`, `antiweb_lib/readers/config.py` and `antiweb_lib/readers/Language.py`: file-system scripting and lexer lookup through foreign libraries.
- `__repr__` methods and the documentation strings.
