/** The passes over figures and equations, one after the other. */
module Rendering {
  import opened Text
  import opened Substitution
  import opened MarkdownLines
  import opened Patterns
  import opened LineScanner
  import opened Links
  import opened Rewriting
  import Figures
  import Equations
  import EquationPasses

  // ---------------------------------------------------------------- rewriting keeps the classes

  lemma FigureReferencesRewrite(references: map<string, Reference>, named: bool)
    ensures Rewrites(Figures.Resolve(references, named))
  {
    hide Shows, EscapeLinkText;
    var by_ := Figures.Resolve(references, named);
    forall content, raw ensures by_(content, raw) == raw || Shows(by_(content, raw)) {
      var key := TrimSpace(content);
      UnknownShows();
      if key in references {
        LinkShows(EscapeLinkText((if named then "Figure " else "") + references[key].number), references[key].anchor);
      }
    }
  }

  lemma EquationReferencesRewrite(references: map<string, Reference>, parenthesized: bool)
    ensures Rewrites(Equations.Resolve(references, parenthesized))
  {
    hide Shows, EscapeLinkText;
    var by_ := Equations.Resolve(references, parenthesized);
    forall content, raw ensures by_(content, raw) == raw || Shows(by_(content, raw)) {
      var key := TrimSpace(content);
      UnknownShows();
      if key in references {
        var number := references[key].number;
        LinkShows(EscapeLinkText(if parenthesized then "(" + number + ")" else number), references[key].anchor);
      }
    }
  }

  lemma FigureLinesKeepText(references: map<string, Reference>)
    ensures KeepsText(Figures.RewriteLine(references))
  {
    hide Unremarkable, Rewrites, Command.ReplaceFrom, Figures.Resolve;
    FigureReferencesRewrite(references, true);
    FigureReferencesRewrite(references, false);
    var first, second := Figures.Resolve(references, true), Figures.Resolve(references, false);
    forall line | Unremarkable(line) ensures Unremarkable(Figures.RewriteLine(references)(line)) {
      ReplacingKeepsText(FIGREF, line, first);
      ReplacingKeepsText(REF, FIGREF.ReplaceFrom(line, 0, first), second);
    }
  }

  lemma EquationLinesKeepText(references: map<string, Reference>)
    ensures KeepsText(Equations.RewriteLine(references))
  {
    hide Unremarkable, Rewrites, Command.ReplaceFrom, Equations.Resolve;
    EquationReferencesRewrite(references, true);
    EquationReferencesRewrite(references, false);
    var first, second := Equations.Resolve(references, true), Equations.Resolve(references, false);
    forall line | Unremarkable(line) ensures Unremarkable(Equations.RewriteLine(references)(line)) {
      ReplacingKeepsText(EQREF, line, first);
      ReplacingKeepsText(REF, EQREF.ReplaceFrom(line, 0, first), second);
    }
  }

  // ---------------------------------------------------------------- the prepared text

  /** What the passes over figures and equations make of a source. */
  function Prepare(source: string): string {
    var figures := Join(Figures.Prepared(Split(UnixNewlines(source))));
    Join(Equations.Prepared(Split(UnixNewlines(figures))))
  }

  method PrepareMarkdown(source: string)
    returns (prepared: string, figures: map<string, Figures.Rendered>, anchors: map<string, string>)
    ensures prepared == Prepare(source)
    ensures figures == Figures.FigureMap(Figures.Collect(Split(UnixNewlines(source))).figures)
  {
    hide Figures.Prepared, Equations.Prepared;
    prepared, figures := Figures.PrepareFigureReferences(source);
    prepared, anchors := Equations.PrepareEquationReferences(prepared);
  }

  // ---------------------------------------------------------------- code

  /** Code in the source of a figure pass is code in its result, and nothing else is. */
  lemma FiguresKeepCode(lines: seq<string>)
    requires Figures.BlocksNeutral(Figures.Steps(lines, 0, REST)) && Figures.FiguresHoldNoCode(Figures.Steps(lines, 0, REST))
    ensures Fenced(Figures.Prepared(lines)) == Fenced(lines)
  {
    hide Figures.Steps, Figures.Collect, Figures.BlocksNeutral, Figures.FiguresHoldNoCode, KeepsText, Figures.RewriteLine, Pick;
    var c := Figures.Collect(lines);
    var references := Figures.References(c.figures);
    Figures.SourceFences(lines);
    Figures.FencedTextUnchanged(lines, Figures.RewriteLine(references));
    FigureLinesKeepText(references);
    FencedKept(c.out, Figures.RewriteLine(references));
    RewriteKeeps(c.out, Figures.RewriteLine(references), FenceLine);
  }

  lemma EquationsKeepCode(lines: seq<string>)
    requires EquationPasses.BlocksContained(Equations.Steps(lines, 0, ""))
    requires EquationPasses.NoFenceInBlocks(Equations.Steps(lines, 0, ""))
    ensures Fenced(Equations.Prepared(lines)) == Fenced(lines)
  {
    hide Equations.Steps, Equations.Collect, KeepsText, Equations.RewriteLine, Pick, Fenced;
    hide EquationPasses.BlocksContained, EquationPasses.NoFenceInBlocks;
    var c := Equations.Collect(lines);
    var references := Equations.References(c.equations);
    EquationPasses.FencedTextUnchanged(lines, Equations.RewriteLine(references));
    EquationLinesKeepText(references);
    FencedKept(c.out, Equations.RewriteLine(references));
  }

  /** Through both passes the code of a source stays as it is, line for line. */
  lemma CodeUnchanged(lines: seq<string>)
    requires Figures.BlocksNeutral(Figures.Steps(lines, 0, REST)) && Figures.FiguresHoldNoCode(Figures.Steps(lines, 0, REST))
    requires EquationPasses.BlocksContained(Equations.Steps(Figures.Prepared(lines), 0, ""))
    requires EquationPasses.NoFenceInBlocks(Equations.Steps(Figures.Prepared(lines), 0, ""))
    ensures Fenced(Equations.Prepared(Figures.Prepared(lines))) == Fenced(lines)
  {
    hide Fenced, Figures.Prepared, Equations.Prepared;
    FiguresKeepCode(lines);
    EquationsKeepCode(Figures.Prepared(lines));
  }
}
