/** Numbering display equations and resolving references to them. */
module Equations {
  import opened Text
  import opened Substitution
  import opened MarkdownLines
  import opened Patterns
  import opened LineScanner
  import opened Links

  /** A numbered equation; `key` is its label, or "". */
  datatype Equation = Equation(key: string, number: string, tagged: bool)

  // ---------------------------------------------------------------- one equation

  function TrimRightNewlines(s: string): string {
    if s != "" && s[|s| - 1] == '\n' then TrimRightNewlines(s[..|s| - 1]) else s
  }

  /** The body without its labels. */
  function Bare(body: string): string {
    if LABEL.First(body, 0).Some? then LABEL.ReplaceFrom(body, 0, (_, _) => "") else body
  }

  function Tag(number: string): string { "\\tag{" + number + "}" }

  /** The tag on a line of its own after the body, if there is a body. */
  function WithTag(kept: string, number: string): string {
    kept + (if TrimSpace(kept) != "" then "\n" else "") + Tag(number)
  }

  /** The number and the rewritten body of a block that `untagged` untagged equations precede. */
  function NumberBody(body: string, untagged: nat): (Equation, string) {
    var key := TrimSpace(LABEL.First(body, 0).GetOr(""));
    var bare := Bare(body);
    match FirstTag(bare, 0)
    case Some(tag) => (Equation(key, TrimSpace(tag), true), bare)
    case None =>
      var number := Decimal(untagged + 1);
      (Equation(key, number, false), WithTag(TrimRightNewlines(bare), number))
  }

  // ---------------------------------------------------------------- collecting

  datatype Step =
    | Copied(line: string, class_: LineClass)
    | Unclosed(line: string)                 // an opening delimiter that nothing closes
    | Display(body: string, source: seq<string>)

  /** The delimiters around a display block. */
  function Opening(step: Step): string
    requires step.Display? && step.source != []
  {
    TrimSpace(step.source[0])
  }

  function Closing(step: Step): string
    requires step.Display? && step.source != []
  {
    EquationEnd(Opening(step))
  }

  function NextStep(lines: seq<string>, i: nat, fence: string): (r: (Step, nat))
    requires i < |lines|
    ensures i < r.1 <= |lines|
    ensures r.0.Display? ==> r.0.source != [] && Closing(r.0) != ""
  {
    var line := lines[i];
    var trimmed := TrimSpace(line);
    if FenceMarker(trimmed) != "" || fence != "" then (Copied(line, FenceLine), i + 1)
    else if EquationEnd(trimmed) == "" then (Copied(line, TextLine), i + 1)
    else
      match FindLine(lines, i + 1, EquationEnd(trimmed))
      case None => (Unclosed(line), i + 1)
      case Some(end) => (Display(Join(lines[i + 1..end]), lines[i..end + 1]), end + 1)
  }

  /** The collecting pass itself only follows fences. */
  function AfterStep(fence: string, step: Step): string {
    match step
    case Copied(line, _) => if FenceMarker(TrimSpace(line)) != "" then NextFence(fence, TrimSpace(line)) else fence
    case _ => fence
  }

  function Steps(lines: seq<string>, i: nat, fence: string): (steps: seq<Step>)
    requires i <= |lines|
    ensures forall k :: 0 <= k < |steps| && steps[k].Display? ==> steps[k].source != [] && Closing(steps[k]) != ""
    decreases |lines| - i
  {
    if i == |lines| then []
    else
      var (step, next) := NextStep(lines, i, fence);
      [step] + Steps(lines, next, AfterStep(fence, step))
  }

  function Untagged(equations: seq<Equation>): nat {
    if equations == [] then 0
    else Untagged(equations[..|equations| - 1]) + (if equations[|equations| - 1].tagged then 0 else 1)
  }

  function Labelled(equations: seq<Equation>): (n: nat)
    ensures n <= |equations|
  {
    if equations == [] then 0
    else Labelled(equations[..|equations| - 1]) + (if equations[|equations| - 1].key == "" then 0 else 1)
  }

  function AnchorToken(k: nat): string { "POSTIZER_EQ_ANCHOR_" + Decimal(k) }

  lemma AnchorTokenInjective(j: nat, k: nat)
    ensures AnchorToken(j) == AnchorToken(k) ==> j == k
  {
    assert AnchorToken(j)[19..] == Decimal(j) && AnchorToken(k)[19..] == Decimal(k);
    if Decimal(j) == Decimal(k) { DecimalInjective(j, k); }
  }

  datatype Collected = Collected(out: seq<string>, equations: seq<Equation>) {
    function Separator(): seq<string> {
      if out != [] && TrimSpace(out[|out| - 1]) != "" then [""] else []
    }

    function Heading(key: string): seq<string> {
      Separator() + if key == "" then [] else [AnchorToken(Labelled(equations)), ""]
    }

    /** The block as it is written back, between its delimiters. */
    function Core(step: Step): seq<string>
      requires step.Display? && step.source != []
    {
      var body := NumberBody(step.body, Untagged(equations)).1;
      [Opening(step)] + (if body == "" then [] else Split(body)) + [Closing(step)]
    }

    function Written(step: Step): seq<string>
      requires step.Display? ==> step.source != []
    {
      match step
      case Copied(line, _) => [line]
      case Unclosed(line) => [line]
      case Display(body, _) => Heading(NumberBody(body, Untagged(equations)).0.key) + Core(step)
    }

    function Then(step: Step): Collected
      requires step.Display? ==> step.source != []
    {
      Collected(out + Written(step),
                if step.Display? then equations + [NumberBody(step.body, Untagged(equations)).0] else equations)
    }
  }

  predicate Opened(steps: seq<Step>) {
    forall k :: 0 <= k < |steps| && steps[k].Display? ==> steps[k].source != [] && Closing(steps[k]) != ""
  }

  function Emit(c: Collected, steps: seq<Step>): Collected
    requires Opened(steps)
    decreases |steps|
  {
    if steps == [] then c else Emit(c.Then(steps[0]), steps[1..])
  }

  const NONE_YET := Collected([], [])

  function Collect(lines: seq<string>): Collected {
    Emit(NONE_YET, Steps(lines, 0, ""))
  }

  // ---------------------------------------------------------------- references and anchors

  function References(equations: seq<Equation>): map<string, Reference>
    decreases |equations|
  {
    if equations == [] then map[]
    else
      var last := equations[|equations| - 1];
      var before := References(equations[..|equations| - 1]);
      if last.key == "" || last.key in before then before
      else before[last.key := Reference(last.number, PrefixedAnchor("eq-", last.key))]
  }

  function LabelOf(equation: Equation): string { equation.key }

  lemma {:induction false} ReferencesResolveFirst(equations: seq<Equation>, key: string)
    ensures key in References(equations) <==> key != "" && FirstWithLabel(equations, LabelOf, key).Some?
    ensures key in References(equations) ==>
              References(equations)[key]
              == Reference(equations[FirstWithLabel(equations, LabelOf, key).value].number, PrefixedAnchor("eq-", key))
    decreases |equations|
  {
    hide PrefixedAnchor;
    if equations != [] {
      ReferencesResolveFirst(equations[..|equations| - 1], key);
    }
  }

  function Anchors(equations: seq<Equation>): map<string, string>
    decreases |equations|
  {
    if equations == [] then map[]
    else
      var last, init := equations[|equations| - 1], equations[..|equations| - 1];
      if last.key == "" then Anchors(init)
      else Anchors(init)[AnchorToken(Labelled(init)) :=
             PrefixedAnchor("eq-", last.key)
             + (if last.key in References(init) then "-" + Decimal(Labelled(init) + 1) else "")]
  }

  /** The anchor of equation `j`: later equations with a label already taken get their own. */
  function Anchor(equations: seq<Equation>, j: nat): string
    requires j < |equations|
  {
    var key, before := equations[j].key, equations[..j];
    PrefixedAnchor("eq-", key) + (if key in References(before) then "-" + Decimal(Labelled(before) + 1) else "")
  }

  /** The token of equation `j` counts the labelled equations before it. */
  function TokenOf(equations: seq<Equation>, j: nat): string
    requires j < |equations|
  {
    AnchorToken(Labelled(equations[..j]))
  }

  ghost predicate HoldsAnchors(equations: seq<Equation>, table: map<string, string>) {
    && Numbered(table, Labelled(equations))
    && (forall j :: 0 <= j < |equations| && equations[j].key != "" ==>
          TokenOf(equations, j) in table && table[TokenOf(equations, j)] == Anchor(equations, j))
  }

  lemma AnchorOfPrefix(equations: seq<Equation>, n: nat, j: nat)
    requires j < n <= |equations|
    ensures Anchor(equations[..n], j) == Anchor(equations, j) && TokenOf(equations[..n], j) == TokenOf(equations, j)
  {
    assert equations[..n][..j] == equations[..j];
  }

  lemma {:induction false} LabelledGrows(equations: seq<Equation>, j: nat)
    requires j < |equations|
    ensures Labelled(equations[..j]) <= Labelled(equations)
    ensures equations[j].key != "" ==> Labelled(equations[..j]) < Labelled(equations)
  {
    var last := |equations| - 1;
    if j < last {
      LabelledGrows(equations[..last], j);
      assert equations[..last][..j] == equations[..j];
    }
  }

  lemma OlderAnchors(init: seq<Equation>, last: Equation, j: nat)
    requires j < |init|
    ensures var all := init + [last];
            && Anchor(all, j) == Anchor(init, j)
            && TokenOf(all, j) == TokenOf(init, j)
            && (init[j].key != "" ==> TokenOf(all, j) != AnchorToken(Labelled(init)))
  {
    hide AnchorToken, Anchor;
    var all := init + [last];
    assert all[..|init|] == init;
    AnchorOfPrefix(all, |init|, j);
    LabelledGrows(init, j);
    AnchorTokenInjective(Labelled(init[..j]), Labelled(init));
  }

  lemma LabelledMore(init: seq<Equation>, last: Equation)
    ensures var all := init + [last];
            && Labelled(all) == Labelled(init) + (if last.key == "" then 0 else 1)
            && TokenOf(all, |init|) == AnchorToken(Labelled(init))
  {
    hide AnchorToken;
    assert (init + [last])[..|init|] == init;
  }

  ghost predicate Numbered(table: map<string, string>, n: nat) {
    |table| == n && forall t :: t in table ==> exists k :: 0 <= k < n && t == AnchorToken(k)
  }

  lemma NumberedMore(table: map<string, string>, n: nat, anchor: string)
    requires Numbered(table, n)
    ensures Numbered(table[AnchorToken(n) := anchor], n + 1)
  {
    hide AnchorToken;
    var token := AnchorToken(n);
    forall k: nat | k < n ensures AnchorToken(k) != token { AnchorTokenInjective(k, n); }
    assert table[token := anchor].Keys == table.Keys + {token};
  }

  lemma HoldsOneMore(init: seq<Equation>, table: map<string, string>, last: Equation)
    requires HoldsAnchors(init, table)
    ensures var all, n := init + [last], |init|;
            HoldsAnchors(all, if last.key == "" then table else table[TokenOf(all, n) := Anchor(all, n)])
  {
    hide AnchorToken, Anchor, TokenOf, Labelled;
    var all, n := init + [last], |init|;
    forall j | 0 <= j < n
      ensures Anchor(all, j) == Anchor(init, j) && TokenOf(all, j) == TokenOf(init, j)
      ensures init[j].key != "" ==> TokenOf(all, j) != AnchorToken(Labelled(init))
    {
      OlderAnchors(init, last, j);
    }
    LabelledMore(init, last);
    NumberedMore(table, Labelled(init), Anchor(all, n));
    var more := if last.key == "" then table else table[TokenOf(all, n) := Anchor(all, n)];
    forall j | 0 <= j < |all| && all[j].key != ""
      ensures TokenOf(all, j) in more && more[TokenOf(all, j)] == Anchor(all, j)
    {
      if j < n { assert all[j] == init[j]; }
    }
  }

  /** The k-th labelled equation has token `k`, which holds its anchor; there are no other tokens. */
  lemma {:induction false} AnchorsNumber(equations: seq<Equation>)
    ensures HoldsAnchors(equations, Anchors(equations))
    decreases |equations|
  {
    hide AnchorToken, HoldsAnchors, PrefixedAnchor;
    if equations == [] {
      NoAnchors();
    } else {
      var n := |equations| - 1;
      AnchorsNumber(equations[..n]);
      HoldsOneMore(equations[..n], Anchors(equations[..n]), equations[n]);
      assert equations[..n] + [equations[n]] == equations;
    }
  }

  lemma NoAnchors()
    ensures HoldsAnchors([], map[])
  {
  }

  function ReferenceMarkdown(content: string, raw: string, references: map<string, Reference>, parenthesized: bool): string {
    var key := TrimSpace(content);
    if key !in references then if parenthesized then "(??)" else "??"
    else
      var number := references[key].number;
      "[" + EscapeLinkText(if parenthesized then "(" + number + ")" else number) + "](#" + references[key].anchor + ")"
  }

  /** Every resolved reference shows the number of the first equation with its label, and links to the anchor that
      the token of that equation holds. */
  lemma ReferenceShowsFirst(equations: seq<Equation>, content: string, raw: string, parenthesized: bool)
    requires TrimSpace(content) in References(equations)
    ensures var first := FirstWithLabel(equations, LabelOf, TrimSpace(content));
            && first.Some?
            && TokenOf(equations, first.value) in Anchors(equations)
            && ReferenceMarkdown(content, raw, References(equations), parenthesized)
               == "[" + EscapeLinkText(var n := equations[first.value].number; if parenthesized then "(" + n + ")" else n)
                  + "](#" + Anchors(equations)[TokenOf(equations, first.value)] + ")"
  {
    hide PrefixedAnchor, EscapeLinkText, AnchorToken, Anchor;
    var key := TrimSpace(content);
    ReferencesResolveFirst(equations, key);
    AnchorsNumber(equations);
    FirstAnchor(equations, key);
  }

  lemma FirstAnchor(equations: seq<Equation>, key: string)
    requires key != "" && FirstWithLabel(equations, LabelOf, key).Some?
    ensures Anchor(equations, FirstWithLabel(equations, LabelOf, key).value) == PrefixedAnchor("eq-", key)
  {
    hide PrefixedAnchor;
    var k := FirstWithLabel(equations, LabelOf, key).value;
    ReferencesResolveFirst(equations[..k], key);
    assert PrefixedAnchor("eq-", key) + "" == PrefixedAnchor("eq-", key);
  }

  // ---------------------------------------------------------------- numbering

  function Displays(steps: seq<Step>): seq<Step> {
    if steps == [] then []
    else (if steps[0].Display? then [steps[0]] else []) + Displays(steps[1..])
  }

  lemma {:induction false} EmitAppend(c: Collected, a: seq<Step>, b: seq<Step>)
    requires Opened(a) && Opened(b)
    ensures Opened(a + b) && Emit(c, a + b) == Emit(Emit(c, a), b)
    decreases |a|
  {
    hide NumberBody;
    if a == [] {
      assert a + b == b;
    } else {
      assert (a + b)[1..] == a[1..] + b;
      EmitAppend(c.Then(a[0]), a[1..], b);
    }
  }

  lemma {:induction false} EmitGrows(c: Collected, steps: seq<Step>)
    requires Opened(steps)
    ensures c.equations <= Emit(c, steps).equations && c.out <= Emit(c, steps).out
    ensures |Emit(c, steps).equations| == |c.equations| + |Displays(steps)|
    decreases |steps|
  {
    hide NumberBody;
    if steps != [] {
      EmitGrows(c.Then(steps[0]), steps[1..]);
    }
  }

  lemma EquationOfStep(steps: seq<Step>, j: nat)
    requires Opened(steps) && j < |steps| && steps[j].Display?
    ensures Opened(steps[..j])
    ensures var before, all := Emit(NONE_YET, steps[..j]).equations, Emit(NONE_YET, steps).equations;
            && |before| == |Displays(steps[..j])| < |all|
            && all[..|before|] == before
            && all[|before|] == NumberBody(steps[j].body, Untagged(before)).0
    ensures Emit(NONE_YET, steps[..j]).Then(steps[j]).out <= Emit(NONE_YET, steps).out
  {
    hide NumberBody, Emit, Displays, Opening, Closing, Split;
    var before := Emit(NONE_YET, steps[..j]);
    EmitGrows(NONE_YET, steps[..j]);
    assert steps == steps[..j] + steps[j..];
    EmitAppend(NONE_YET, steps[..j], steps[j..]);
    EmitFirst(before, steps[j..]);
    assert steps[j..][1..] == steps[j + 1..];
    EmitGrows(before.Then(steps[j]), steps[j + 1..]);
  }

  lemma EmitFirst(c: Collected, steps: seq<Step>)
    requires Opened(steps) && steps != []
    ensures Opened(steps[1..]) && Emit(c, steps) == Emit(c.Then(steps[0]), steps[1..])
  {
    hide NumberBody;
  }

  /** A display block becomes the equation that as many blocks precede. With a tag it carries that tag; the
      k-th block without one carries the number k, also as the tag at the end of its body. */
  lemma EquationTakesItsNumber(steps: seq<Step>, j: nat)
    requires Opened(steps) && j < |steps| && steps[j].Display?
    ensures Opened(steps[..j])
    ensures var k := |Displays(steps[..j])|;
            var all := Emit(NONE_YET, steps).equations;
            && k < |all|
            && all[k].tagged == FirstTag(Bare(steps[j].body), 0).Some?
            && (all[k].tagged ==> all[k].number == TrimSpace(FirstTag(Bare(steps[j].body), 0).value))
            && (!all[k].tagged ==> all[k].number == Decimal(Untagged(all[..k]) + 1))
            && (!all[k].tagged ==>
                  HasSuffix(NumberBody(steps[j].body, Untagged(all[..k])).1, Tag(all[k].number)))
  {
    hide NumberBody, FirstTag, HasSuffix, Bare, Emit, Decimal, TrimSpace;
    EquationOfStep(steps, j);
    BodyNumber(steps[j].body, Untagged(Emit(NONE_YET, steps[..j]).equations));
  }

  /** The rewritten block follows everything written before; the token of a labelled one stands in between. */
  lemma EquationTakesItsPlace(steps: seq<Step>, j: nat)
    requires Opened(steps) && j < |steps| && steps[j].Display?
    ensures Opened(steps[..j])
    ensures var k := |Displays(steps[..j])|;
            var before, all := Emit(NONE_YET, steps[..j]), Emit(NONE_YET, steps);
            && k < |all.equations|
            && all.equations[k].key == TrimSpace(LABEL.First(steps[j].body, 0).GetOr(""))
            && before.out + before.Separator()
               + (if all.equations[k].key == "" then [] else [TokenOf(all.equations, k), ""])
               + before.Core(steps[j])
               <= all.out
  {
    hide NumberBody, Emit, TrimSpace, Collected.Core, Collected.Separator, Collected.Then, Displays, TokenOf, Command.First, Untagged;
    EquationOfStep(steps, j);
    var before, all := Emit(NONE_YET, steps[..j]), Emit(NONE_YET, steps);
    BodyNumber(steps[j].body, Untagged(before.equations));
    BlockStands(before, all.equations, steps[j]);
  }

  lemma BlockStands(before: Collected, all: seq<Equation>, step: Step)
    requires step.Display? && step.source != [] && |before.equations| < |all| && before.equations == all[..|before.equations|]
    requires all[|before.equations|] == NumberBody(step.body, Untagged(before.equations)).0
    ensures var k := |before.equations|;
            before.Then(step).out
            == before.out + before.Separator() + (if all[k].key == "" then [] else [TokenOf(all, k), ""]) + before.Core(step)
  {
    hide NumberBody, Collected.Core, Collected.Separator, Collected.Heading, TokenOf, Untagged;
    HeadingStands(before, all);
    var token := if all[|before.equations|].key == "" then [] else [TokenOf(all, |before.equations|), ""];
    assert before.out + ((before.Separator() + token) + before.Core(step))
        == before.out + before.Separator() + token + before.Core(step);
  }

  lemma HeadingStands(before: Collected, all: seq<Equation>)
    requires |before.equations| < |all| && before.equations == all[..|before.equations|]
    ensures var k := |before.equations|;
            before.Heading(all[k].key) == before.Separator() + (if all[k].key == "" then [] else [TokenOf(all, k), ""])
  {
    hide AnchorToken, Labelled;
  }

  lemma BodyNumber(body: string, untagged: nat)
    ensures var (equation, rewritten) := NumberBody(body, untagged);
            && equation.key == TrimSpace(LABEL.First(body, 0).GetOr(""))
            && equation.tagged == FirstTag(Bare(body), 0).Some?
            && (equation.tagged ==> equation.number == TrimSpace(FirstTag(Bare(body), 0).value))
            && (!equation.tagged ==> equation.number == Decimal(untagged + 1))
            && (!equation.tagged ==> HasSuffix(rewritten, Tag(equation.number)))
  {
    hide FirstTag, TrimSpace, Decimal;
  }

  // ---------------------------------------------------------------- the code

  function Resolve(references: map<string, Reference>, parenthesized: bool): (string, string) -> string {
    (content, raw) => ReferenceMarkdown(content, raw, references, parenthesized)
  }

  function RewriteLine(references: map<string, Reference>): string -> string {
    (line: string) => REF.ReplaceFrom(EQREF.ReplaceFrom(line, 0, Resolve(references, true)), 0, Resolve(references, false))
  }

  function Prepared(lines: seq<string>): seq<string> {
    var c := Collect(lines);
    var references := References(c.equations);
    if references == map[] then c.out else RewriteText(c.out, REST, RewriteLine(references))
  }

  lemma OneMoreEquation(equations: seq<Equation>, equation: Equation)
    ensures var all, references, n := equations + [equation], References(equations), Labelled(equations);
            var anchor := PrefixedAnchor("eq-", equation.key);
            && Untagged(all) == Untagged(equations) + (if equation.tagged then 0 else 1)
            && References(all) == (if equation.key == "" || equation.key in references then references
                                   else references[equation.key := Reference(equation.number, anchor)])
            && Anchors(all) == (if equation.key == "" then Anchors(equations)
                                else Anchors(equations)[AnchorToken(n) :=
                                       anchor + (if equation.key in references then "-" + Decimal(n + 1) else "")])
  {
    hide AnchorToken;
    assert (equations + [equation])[..|equations|] == equations;
  }

  /** The anchor of one more equation; `before` is what has been collected. */
  method AppendAnchor(
    equation: Equation, references: map<string, Reference>, anchors: map<string, string>, ghost before: Collected)
    returns (heading: seq<string>, references': map<string, Reference>, anchors': map<string, string>)
    requires references == References(before.equations) && anchors == Anchors(before.equations)
    ensures before.Heading(equation.key) == before.Separator() + heading
    ensures references' == References(before.equations + [equation])
    ensures anchors' == Anchors(before.equations + [equation])
  {
    hide AnchorToken, PrefixedAnchor, References, Anchors, Decimal;
    AnchorsNumber(before.equations);
    OneMoreEquation(before.equations, equation);
    heading, references', anchors' := [], references, anchors;
    if equation.key != "" {
      var anchor := PrefixedAnchorID("eq-", equation.key);
      if equation.key !in references {
        references' := references[equation.key := Reference(equation.number, anchor)];
      } else {
        ConcatMiddle(anchor, "-", Decimal(|anchors| + 1));
        anchor := anchor + "-" + Decimal(|anchors| + 1);
      }
      assert PrefixedAnchor("eq-", equation.key) + "" == PrefixedAnchor("eq-", equation.key);
      var token := AnchorToken(|anchors|);
      anchors' := anchors[token := anchor];
      heading := [token, ""];
    }
  }

  /** Appends one display block. */
  method AppendDisplay(
    out: seq<string>, references: map<string, Reference>, anchors: map<string, string>, equationNumber: nat,
    step: Step, ghost before: Collected)
    returns (out': seq<string>, references': map<string, Reference>, anchors': map<string, string>, equationNumber': nat)
    requires step.Display? && step.source != []
    requires out == before.out && references == References(before.equations) && anchors == Anchors(before.equations)
    requires equationNumber == Untagged(before.equations)
    ensures var c := before.Then(step);
            && out' == c.out && references' == References(c.equations) && anchors' == Anchors(c.equations)
            && equationNumber' == Untagged(c.equations)
  {
    hide References, Anchors, NumberBody, Labelled, Split, TrimSpace, Opening, Closing, AnchorToken, Untagged, Collected.Heading;
    var (equation, body) := NumberBody(step.body, equationNumber);
    OneMoreEquation(before.equations, equation);
    equationNumber' := if equation.tagged then equationNumber else equationNumber + 1;
    var heading;
    heading, references', anchors' := AppendAnchor(equation, references, anchors, before);
    var core := [Opening(step)];
    if body != "" {
      core := core + Split(body);
    }
    core := core + [Closing(step)];
    out' := out;
    if |out| > 0 && TrimSpace(out[|out| - 1]) != "" {
      out' := out' + [""];
    }
    out' := out' + heading + core;
    assert core == before.Core(step);
    assert before.Written(step) == before.Heading(equation.key) + core;
    assert out' == before.out + (before.Separator() + heading + core);
  }

  lemma EmitNextStep(c: Collected, lines: seq<string>, i: nat, fence: string)
    requires i < |lines|
    ensures var (step, next) := NextStep(lines, i, fence);
            Emit(c, Steps(lines, i, fence)) == Emit(c.Then(step), Steps(lines, next, AfterStep(fence, step)))
  {
    hide NextStep, AfterStep;
    var (step, next) := NextStep(lines, i, fence);
    assert Steps(lines, i, fence)[1..] == Steps(lines, next, AfterStep(fence, step));
  }

  lemma NoMoreSteps(c: Collected, lines: seq<string>, fence: string)
    ensures Emit(c, Steps(lines, |lines|, fence)) == c
    ensures References([]) == map[] && Anchors([]) == map[] && Untagged([]) == 0
  {
  }

  lemma CopiedThen(c: Collected, step: Step)
    requires step.Display? ==> step.source != []
    ensures !step.Display? ==> c.Then(step) == Collected(c.out + [step.line], c.equations)
  {
  }

  method CollectEquationReferences(lines: seq<string>)
    returns (out: seq<string>, references: map<string, Reference>, anchors: map<string, string>)
    ensures var c := Collect(lines);
            out == c.out && references == References(c.equations) && anchors == Anchors(c.equations)
  {
    hide FenceMarker, ClosesFence, References, Anchors, Steps, Emit, NumberBody, FindLine, TrimSpace, Untagged, Collected.Then;
    out, references, anchors := [], map[], map[];
    NoMoreSteps(NONE_YET, lines, "");
    var equationNumber := 0;
    var inFence, fenceMarker := false, "";
    ghost var now := NONE_YET;
    var i := 0;
    while i < |lines|
      invariant i <= |lines| && inFence == (fenceMarker != "")
      invariant Collect(lines) == Emit(now, Steps(lines, i, fenceMarker))
      invariant out == now.out && references == References(now.equations) && anchors == Anchors(now.equations)
      invariant equationNumber == Untagged(now.equations)
    {
      var line := lines[i];
      var trimmed := TrimSpace(line);
      EmitNextStep(now, lines, i, fenceMarker);
      ghost var step := NextStep(lines, i, fenceMarker).0;
      CopiedThen(now, step);
      var marker := MarkdownFenceMarker(trimmed);
      var next := i + 1;
      if marker != "" {
        if inFence {
          var closes := ClosesMarkdownFence(trimmed, fenceMarker);
          if closes { inFence, fenceMarker := false, ""; }
        } else {
          inFence, fenceMarker := true, marker;
        }
        out := out + [line];
      } else if inFence || EquationEnd(trimmed) == "" {
        out := out + [line];
      } else {
        var end := FindLineIndex(lines, i + 1, EquationEnd(trimmed));
        if end == -1 {
          out := out + [line];
        } else {
          var display := Display(Join(lines[i + 1..end]), lines[i..end + 1]);
          out, references, anchors, equationNumber :=
            AppendDisplay(out, references, anchors, equationNumber, display, now);
          next := end + 1;
        }
      }
      now := now.Then(step);
      i := next;
    }
    NoMoreSteps(now, lines, fenceMarker);
  }

  lemma WrittenOneLineEach(c: Collected, step: Step)
    requires OneLineEach(Sources(step)) && (step.Display? ==> step.source != [] && Closing(step) != "")
    ensures OneLineEach(c.Written(step)) && c.Written(step) != []
  {
    hide NumberBody, AnchorToken, TrimSpace, Labelled, Untagged;
    if step.Display? {
      AnchorLines(Labelled(c.equations));
      assert OneLineEach(c.Separator());
      assert OneLineEach(c.Core(step));
    } else {
      assert Sources(step)[0] == c.Written(step)[0];
    }
  }

  lemma {:induction false} EmitOneLineEach(c: Collected, steps: seq<Step>)
    requires Opened(steps) && OneLineEach(c.out) && (c.out != [] || steps != [])
    requires forall k :: 0 <= k < |steps| ==> OneLineEach(Sources(steps[k]))
    ensures var out := Emit(c, steps).out; OneLineEach(out) && out != []
    decreases |steps|
  {
    hide Sources, Closing;
    if steps != [] {
      WrittenOneLineEach(c, steps[0]);
      EmitOneLineEach(c.Then(steps[0]), steps[1..]);
    }
  }

  /** The lines a step copies as they are. */
  function Sources(step: Step): seq<string> {
    match step
    case Copied(line, _) => [line]
    case Unclosed(line) => [line]
    case Display(_, _) => []
  }

  lemma AnchorLines(k: nat)
    ensures '\n' !in AnchorToken(k)
  {
  }

  lemma {:induction false} StepsOneLineEach(lines: seq<string>, i: nat, fence: string)
    requires i <= |lines| && OneLineEach(lines)
    ensures forall k :: 0 <= k < |Steps(lines, i, fence)| ==> OneLineEach(Sources(Steps(lines, i, fence)[k]))
    ensures i < |lines| ==> Steps(lines, i, fence) != []
    decreases |lines| - i
  {
    hide FenceMarker, FindLine;
    if i < |lines| {
      var (step, next) := NextStep(lines, i, fence);
      StepsOneLineEach(lines, next, AfterStep(fence, step));
    }
  }

  method PrepareEquationReferences(source: string) returns (prepared: string, anchors: map<string, string>)
    ensures var lines := Split(UnixNewlines(source));
            prepared == Join(Prepared(lines)) && anchors == Anchors(Collect(lines).equations)
  {
    hide Steps, Emit, References, Anchors, RewriteLine;
    var lines := Split(UnixNewlines(source));
    var out, references;
    out, references, anchors := CollectEquationReferences(lines);
    prepared := Join(out);
    if |references| != 0 {
      StepsOneLineEach(lines, 0, "");
      EmitOneLineEach(NONE_YET, Steps(lines, 0, ""));
      SplitJoin(out);
      out := RewriteLines(Split(prepared), RewriteLine(references));
      prepared := Join(out);
    }
  }
}
