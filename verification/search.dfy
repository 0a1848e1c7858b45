/**
 * Turning retrieval results into a prompt: the context assembler
 * (`search_result_to_context`) and the prompt builder (`search_prompt`) with
 * its fixed Portuguese template.
 */
module Search {
  import opened Results
  import Ingest

  /** One `(Document, score)` pair returned by the similarity search. */
  datatype SearchResult = SearchResult(document: Ingest.Document, score: real)

  // ---------------------------------------------------------------------------
  // Context assembler.
  // ---------------------------------------------------------------------------

  /** `sep.join(parts)` for a one-character separator. */
  function Join(parts: seq<string>, sep: char): string
  {
    if |parts| == 0 then ""
    else if |parts| == 1 then parts[0]
    else parts[0] + [sep] + Join(parts[1..], sep)
  }

  /** `s.split(sep)` for a one-character separator: the pieces between separators. */
  function Split(s: string, sep: char): (parts: seq<string>)
    ensures |parts| >= 1
  {
    if s == [] then [""]
    else
      var rest := Split(s[1..], sep);
      if s[0] == sep then [""] + rest else [[s[0]] + rest[0]] + rest[1..]
  }

  function SumLengths(parts: seq<string>): nat
  {
    if parts == [] then 0 else |parts[0]| + SumLengths(parts[1..])
  }

  /** `[doc.page_content for doc, _ in search_result]`. */
  function PageContents(results: seq<SearchResult>): (contents: seq<string>)
    ensures |contents| == |results|
    ensures forall i :: 0 <= i < |results| ==> contents[i] == results[i].document.pageContent
  {
    seq(|results|, i requires 0 <= i < |results| => results[i].document.pageContent)
  }

  /** `search_result_to_context`: the page contents joined by newlines, in result order. */
  function SearchResultToContext(results: seq<SearchResult>): (context: string)
    ensures results == [] ==> context == ""
    ensures |results| == 1 ==> context == results[0].document.pageContent
  {
    Join(PageContents(results), '\n')
  }

  lemma {:induction false} JoinLength(parts: seq<string>, sep: char)
    requires |parts| >= 1
    ensures |Join(parts, sep)| == SumLengths(parts) + |parts| - 1
    decreases |parts|
  {
    if |parts| > 1 {
      JoinLength(parts[1..], sep);
    }
  }

  /** Splitting a separator-free prefix off: it glues onto the first piece. */
  lemma {:induction false} SplitPrefix(a: string, t: string, sep: char)
    requires sep !in a
    ensures Split(a + t, sep) == [a + Split(t, sep)[0]] + Split(t, sep)[1..]
    decreases |a|
  {
    if a != [] {
      SplitPrefix(a[1..], t, sep);
      assert (a + t)[1..] == a[1..] + t;
      assert [a[0]] + (a[1..] + Split(t, sep)[0]) == a + Split(t, sep)[0];
    } else {
      assert a + t == t;
      assert a + Split(t, sep)[0] == Split(t, sep)[0];
      assert Split(t, sep) == [Split(t, sep)[0]] + Split(t, sep)[1..];
    }
  }

  /** Joining separator-free parts and splitting again gives the parts back. */
  lemma {:induction false} SplitJoin(parts: seq<string>, sep: char)
    requires |parts| >= 1
    requires forall i :: 0 <= i < |parts| ==> sep !in parts[i]
    ensures Split(Join(parts, sep), sep) == parts
    decreases |parts|
  {
    if |parts| == 1 {
      SplitPrefix(parts[0], "", sep);
      assert parts[0] + "" == parts[0];
    } else {
      var rest := Join(parts[1..], sep);
      SplitJoin(parts[1..], sep);
      assert ([sep] + rest)[1..] == rest;
      assert Split([sep] + rest, sep) == [""] + parts[1..];
      assert Join(parts, sep) == parts[0] + ([sep] + rest);
      SplitPrefix(parts[0], [sep] + rest, sep);
      assert parts[0] + "" == parts[0];
      assert [parts[0]] + parts[1..] == parts;
    }
  }

  /** For n >= 1 results the context has the contents' total length plus n - 1 newlines. */
  lemma ContextLength(results: seq<SearchResult>)
    requires |results| >= 1
    ensures |SearchResultToContext(results)| == SumLengths(PageContents(results)) + |results| - 1
  {
    JoinLength(PageContents(results), '\n');
  }

  /** Splitting the context at newlines recovers the contents, in order, when none holds a newline. */
  lemma ContextSplitsIntoContents(results: seq<SearchResult>)
    requires |results| >= 1
    requires forall i :: 0 <= i < |results| ==> '\n' !in results[i].document.pageContent
    ensures Split(SearchResultToContext(results), '\n') == PageContents(results)
  {
    SplitJoin(PageContents(results), '\n');
  }

  /** One more result appends a newline and its content: order is that of the results. */
  lemma ContextAppend(results: seq<SearchResult>, last: SearchResult)
    requires |results| >= 1
    ensures SearchResultToContext(results + [last])
         == SearchResultToContext(results) + "\n" + last.document.pageContent
  {
    JoinSnoc(PageContents(results), last.document.pageContent, '\n');
    assert PageContents(results + [last]) == PageContents(results) + [last.document.pageContent];
  }

  lemma {:induction false} JoinSnoc(parts: seq<string>, x: string, sep: char)
    requires |parts| >= 1
    ensures Join(parts + [x], sep) == Join(parts, sep) + [sep] + x
    decreases |parts|
  {
    if |parts| > 1 {
      JoinSnoc(parts[1..], x, sep);
      assert (parts + [x])[1..] == parts[1..] + [x];
    }
  }

  /** Scores play no part: results with the same contents give the same context. */
  lemma ContextIgnoresScores(a: seq<SearchResult>, b: seq<SearchResult>)
    requires |a| == |b|
    requires forall i :: 0 <= i < |a| ==> a[i].document.pageContent == b[i].document.pageContent
    ensures SearchResultToContext(a) == SearchResultToContext(b)
  {
    assert PageContents(a) == PageContents(b);
  }

  lemma ContextExample(m: map<string, Ingest.Value>, s0: real, s1: real, s2: real)
    ensures SearchResultToContext([
      SearchResult(Ingest.Document("A", m), s0),
      SearchResult(Ingest.Document("B", m), s1),
      SearchResult(Ingest.Document("C", m), s2)]) == "A\nB\nC"
  {
    var rs := [
      SearchResult(Ingest.Document("A", m), s0),
      SearchResult(Ingest.Document("B", m), s1),
      SearchResult(Ingest.Document("C", m), s2)];
    assert PageContents(rs) == ["A", "B", "C"];
    assert ["A", "B", "C"][1..] == ["B", "C"];
    assert ["B", "C"][1..] == ["C"];
    assert Join(["B", "C"], '\n') == "B\nC";
  }

  // ---------------------------------------------------------------------------
  // Prompt builder.
  // ---------------------------------------------------------------------------

  /** A `str.format` template: literal text and named replacement fields. */
  datatype Piece = Text(text: string) | Field(name: string)

  /**
   * `template.format(**args)`: each field is replaced by its argument verbatim;
   * a field without an argument raises `KeyError` naming that field.
   */
  function Format(template: seq<Piece>, args: map<string, string>): (r: Result<string>)
    ensures r.Ok? <==> forall i :: 0 <= i < |template| && template[i].Field? ==> template[i].name in args
    ensures r.Err? ==> exists i :: 0 <= i < |template| && template[i] == Field(r.message) && r.message !in args
  {
    if template == [] then Ok("")
    else
      var rest := Format(template[1..], args);
      match template[0]
      case Text(t) => if rest.Ok? then Ok(t + rest.value) else rest
      case Field(n) =>
        if n !in args then Err(n)
        else if rest.Ok? then Ok(args[n] + rest.value) else rest
  }

  /** A template with two fields between three literal parts renders as their concatenation. */
  lemma FormatTwoFields(prefix: string, f1: string, middle: string, f2: string, suffix: string,
                        args: map<string, string>)
    requires f1 in args && f2 in args
    ensures Format([Text(prefix), Field(f1), Text(middle), Field(f2), Text(suffix)], args)
         == Ok(prefix + args[f1] + middle + args[f2] + suffix)
  {
    var t := [Text(prefix), Field(f1), Text(middle), Field(f2), Text(suffix)];
    assert t[4..][1..] == [];
    assert suffix + "" == suffix;
    assert t[1..][1..] == t[2..] && t[2..][1..] == t[3..] && t[3..][1..] == t[4..];
    assert Format(t[4..], args) == Ok(suffix);
    assert Format(t[3..], args) == Ok(args[f2] + suffix);
    assert Format(t[2..], args) == Ok(middle + (args[f2] + suffix));
    assert Format(t[1..], args) == Ok(args[f1] + (middle + (args[f2] + suffix)));
    assert Format(t, args) == Ok(prefix + (args[f1] + (middle + (args[f2] + suffix))));
    assert prefix + (args[f1] + (middle + (args[f2] + suffix)))
        == prefix + args[f1] + middle + args[f2] + suffix;
  }

  /** The text of `PROMPT_TEMPLATE` before `{contexto}`. */
  const TemplatePrefix: string := "\nCONTEXTO:\n"

  /** The fixed answer the template tells the model to give when the context has no answer. */
  const Refusal: string := "Não tenho informações necessárias para responder sua pergunta."

  /** The template's rules, up to the opening quote of the refusal they prescribe. */
  const RulesHead: string :=
    "\n\n" +
    "REGRAS:\n" +
    "- Responda somente com base no CONTEXTO.\n" +
    "- Se a informação não estiver explicitamente no CONTEXTO, responda:\n" +
    "  \""

  /** The rest of the rules and the three worked refusal examples, up to `{pergunta}`. */
  const RulesTail: string :=
    "\"\n" +
    "- Nunca invente ou use conhecimento externo.\n" +
    "- Nunca produza opiniões ou interpretações além do que está escrito.\n" +
    "\n" +
    "EXEMPLOS DE PERGUNTAS FORA DO CONTEXTO:\n" +
    "Pergunta: \"Qual é a capital da França?\"\n" +
    "Resposta: \"" + Refusal + "\"\n" +
    "\n" +
    "Pergunta: \"Quantos clientes temos em 2024?\"\n" +
    "Resposta: \"" + Refusal + "\"\n" +
    "\n" +
    "Pergunta: \"Você acha isso bom ou ruim?\"\n" +
    "Resposta: \"" + Refusal + "\"\n" +
    "\n" +
    "PERGUNTA DO USUÁRIO:\n"

  /** The text of `PROMPT_TEMPLATE` between `{contexto}` and `{pergunta}`. */
  const TemplateMiddle: string := RulesHead + (Refusal + RulesTail)

  /** The text of `PROMPT_TEMPLATE` after `{pergunta}`. */
  const TemplateSuffix: string := "\n\nRESPONDA A \"PERGUNTA DO USUÁRIO\"\n"

  /** `PROMPT_TEMPLATE` as pieces: its two fields are `contexto` and `pergunta`. */
  const PromptTemplate: seq<Piece> :=
    [Text(TemplatePrefix), Field("contexto"), Text(TemplateMiddle), Field("pergunta"), Text(TemplateSuffix)]

  /** Number of template characters outside the two fields. */
  const TemplateFixedLength: nat := |TemplatePrefix| + |TemplateMiddle| + |TemplateSuffix|

  /**
   * `search_prompt(question, context)`: the template with `contexto` bound to
   * `context` and `pergunta` bound to `question`.
   */
  function SearchPrompt(question: string, context: string): (prompt: string)
    ensures prompt == TemplatePrefix + context + TemplateMiddle + question + TemplateSuffix
  {
    var args := map["contexto" := context, "pergunta" := question];
    FormatTwoFields(TemplatePrefix, "contexto", TemplateMiddle, "pergunta", TemplateSuffix, args);
    var r := Format(PromptTemplate, args);
    r.value
  }

  /**
   * Where each argument lands in the prompt, whatever characters it holds
   * (braces included): the context right after the prefix, the question right
   * after the middle part, and nothing else varies.
   */
  lemma PromptLayout(question: string, context: string)
    ensures var p := SearchPrompt(question, context);
      var q0 := |TemplatePrefix| + |context| + |TemplateMiddle|;
      && |p| == TemplateFixedLength + |context| + |question|
      && p[..|TemplatePrefix|] == TemplatePrefix
      && p[|TemplatePrefix|..|TemplatePrefix| + |context|] == context
      && p[|TemplatePrefix| + |context|..q0] == TemplateMiddle
      && p[q0..q0 + |question|] == question
      && p[q0 + |question|..] == TemplateSuffix
  {
    ConcatLayout(TemplatePrefix, context, TemplateMiddle, question, TemplateSuffix);
  }

  /** Where each of five concatenated strings sits in the concatenation. */
  lemma ConcatLayout(a: string, b: string, c: string, d: string, e: string)
    ensures var p := a + b + c + d + e;
      && |p| == |a| + |b| + |c| + |d| + |e|
      && p[..|a|] == a
      && p[|a|..|a| + |b|] == b
      && p[|a| + |b|..|a| + |b| + |c|] == c
      && p[|a| + |b| + |c|..|a| + |b| + |c| + |d|] == d
      && p[|a| + |b| + |c| + |d|..] == e
  {
    var p := a + b + c + d + e;
    var ab := a + b;
    var abc := ab + c;
    var abcd := abc + d;
    assert p[..|abcd|] == abcd;
    assert abcd[..|abc|] == abc;
    assert abc[..|ab|] == ab;
    assert p[..|abc|] == abc;
    assert p[..|ab|] == ab;
  }

  /** Changing only the question changes only the question region of the prompt. */
  lemma OnlyQuestionRegionChanges(context: string, q1: string, q2: string)
    ensures var p1 := SearchPrompt(q1, context);
      var p2 := SearchPrompt(q2, context);
      var k := |TemplatePrefix| + |context| + |TemplateMiddle|;
      && k + |q1| <= |p1| && k + |q2| <= |p2|
      && p1[..k] == p2[..k]
      && p1[k..k + |q1|] == q1 && p2[k..k + |q2|] == q2
      && p1[k + |q1|..] == p2[k + |q2|..]
  {
    var p1 := SearchPrompt(q1, context);
    var p2 := SearchPrompt(q2, context);
    var head := TemplatePrefix + context + TemplateMiddle;
    assert p1 == head + q1 + TemplateSuffix && p2 == head + q2 + TemplateSuffix;
    PromptLayout(q1, context);
    PromptLayout(q2, context);
    assert p1[..|head|] == head && p2[..|head|] == head;
  }

  /** Values that look like fields are not substituted again: they appear as typed. */
  lemma PromptKeepsBraces()
    ensures SearchPrompt("{contexto}", "{pergunta}")
         == TemplatePrefix + "{pergunta}" + TemplateMiddle + "{contexto}" + TemplateSuffix
  {
  }

  lemma SliceOfMiddle(a: string, b: string, c: string)
    ensures (a + (b + c))[|a|..|a| + |b|] == b
  {
    assert (a + (b + c))[|a|..] == b + c;
  }

  /** The rules tell the model to answer with the fixed refusal string. */
  lemma TemplateInstructsRefusal()
    ensures TemplateMiddle[|RulesHead|..|RulesHead| + |Refusal|] == Refusal
  {
    SliceOfMiddle(RulesHead, Refusal, RulesTail);
  }

  /** The template has 760 characters besides its two fields. */
  lemma TemplateFixedLengthValue()
    ensures TemplateFixedLength == 760
  {
  }
}
