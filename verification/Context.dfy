/**
 Building the retrieval context of a chat request: the token budget left by the
 prompt and the output, and the greedy choice of whole hits that fit it.
 */
module Context {
  import opened Prelude
  import opened Text

  datatype RetrievedChunk = RetrievedChunk(chunkId: string, documentId: string, fileId: string, content: string, locator: seq<nat>)

  datatype Citation = Citation(id: string, chunkId: string, documentId: string, fileId: string, locator: seq<nat>)

  datatype BuiltContext = BuiltContext(content: string, citations: seq<Citation>, usedTokens: nat)

  datatype ContextError = NegativeBudget | EmptyIdentifier | EmptyLocator | EmptyContent

  // ---- Labels ---------------------------------------------------------------------

  function Decimal(n: nat): (s: string)
    ensures s != []
  {
    var digit := '0' + (n % 10) as char;
    if n < 10 then [digit] else Decimal(n / 10) + [digit]
  }

  function FromDecimal(s: string): int {
    if s == [] then 0 else 10 * FromDecimal(s[..|s| - 1]) + (s[|s| - 1] as int - '0' as int)
  }

  lemma {:induction false} DecimalReadsBack(n: nat)
    ensures FromDecimal(Decimal(n)) == n
  {
    if n < 10 {
      assert Decimal(n)[..0] == [];
    } else {
      DecimalReadsBack(n / 10);
      assert Decimal(n)[..|Decimal(n)| - 1] == Decimal(n / 10);
    }
  }

  function SourceId(n: nat): string {
    "source-" + Decimal(n)
  }

  lemma SourceIdsDiffer(m: nat, n: nat)
    ensures SourceId(m) == SourceId(n) <==> m == n
  {
    DecimalReadsBack(m);
    DecimalReadsBack(n);
    if SourceId(m) == SourceId(n) {
      assert SourceId(m)[7..] == Decimal(m) && SourceId(n)[7..] == Decimal(n);
    }
  }

  // ---- Checks and formatting --------------------------------------------------------

  function CitationFor(n: nat, hit: RetrievedChunk): Citation {
    Citation(SourceId(n), hit.chunkId, hit.documentId, hit.fileId, hit.locator)
  }

  /** _format_fragment */
  function Format(n: nat, content: string): string {
    "<knowledge_context source_id=\"" + SourceId(n) + "\">\n" + Strip(content) + "\n</knowledge_context>"
  }

  /** The errors raised while a hit is tried, in the order the code meets them. */
  function HitError(hit: RetrievedChunk): Option<ContextError> {
    if Strip(hit.chunkId) == [] || Strip(hit.documentId) == [] || Strip(hit.fileId) == [] then Some(EmptyIdentifier)
    else if hit.locator == [] then Some(EmptyLocator)
    else if Strip(hit.content) == [] then Some(EmptyContent)
    else None
  }

  function Earlier(first: Option<ContextError>, second: Option<ContextError>): Option<ContextError> {
    if first.Some? then first else second
  }

  /** The error of the first hit that has one: every hit is checked, also those that will not fit. */
  function FirstError(check: RetrievedChunk -> Option<ContextError>, hits: seq<RetrievedChunk>, n: nat): Option<ContextError>
    requires n <= |hits|
  {
    if n == 0 then None else Earlier(FirstError(check, hits, n - 1), check(hits[n - 1]))
  }

  lemma {:induction false} FirstErrorStands(check: RetrievedChunk -> Option<ContextError>, hits: seq<RetrievedChunk>, k: nat, n: nat)
    requires k <= n <= |hits| && FirstError(check, hits, k).Some?
    ensures FirstError(check, hits, n) == FirstError(check, hits, k)
  {
    if k == n {
    } else {
      FirstErrorStands(check, hits, k, n - 1);
    }
  }

  lemma NextError(check: RetrievedChunk -> Option<ContextError>, hits: seq<RetrievedChunk>, n: nat, error: Option<ContextError>)
    requires n < |hits| && FirstError(check, hits, n).None? && error == check(hits[n])
    ensures FirstError(check, hits, n + 1) == error
    ensures error.Some? ==> FirstError(check, hits, |hits|) == error
  {
    if error.Some? {
      FirstErrorStands(check, hits, n + 1, |hits|);
    }
  }

  /** What is wrong with a hit, if anything: an identifier is blank, else the locator is empty, else the content is blank. */
  lemma HitErrorTells(hit: RetrievedChunk)
    ensures HitError(hit) == Some(EmptyIdentifier) <==> Blank(hit.chunkId) || Blank(hit.documentId) || Blank(hit.fileId)
    ensures HitError(hit) == None <==>
      !Blank(hit.chunkId) && !Blank(hit.documentId) && !Blank(hit.fileId) && hit.locator != [] && !Blank(hit.content)
    ensures HitError(hit) == Some(EmptyContent) ==> hit.locator != [] && Blank(hit.content)
    ensures HitError(hit) == Some(EmptyLocator) ==> hit.locator == []
    ensures HitError(hit) != Some(NegativeBudget)
  {
    StripOfBlank(hit.chunkId);
    StripOfBlank(hit.documentId);
    StripOfBlank(hit.fileId);
    StripOfBlank(hit.content);
  }

  /** The error reported is that of the first hit with one, and none is reported only if no hit has one. */
  lemma {:induction false} FirstErrorIsFirst(check: RetrievedChunk -> Option<ContextError>, hits: seq<RetrievedChunk>, n: nat)
    requires n <= |hits|
    ensures match FirstError(check, hits, n)
            case None => forall k :: 0 <= k < n ==> check(hits[k]) == None
            case Some(e) => exists k :: 0 <= k < n && check(hits[k]) == Some(e) && forall j :: 0 <= j < k ==> check(hits[j]) == None
  {
    if n == 0 {
    } else {
      FirstErrorIsFirst(check, hits, n - 1);
      assert FirstError(check, hits, n - 1).None? && check(hits[n - 1]).Some? ==> check(hits[n - 1]) == Some(check(hits[n - 1]).value);
    }
  }

  // ---- The greedy choice --------------------------------------------------------------

  predicate Within(chosen: seq<nat>, n: nat) {
    forall i :: 0 <= i < |chosen| ==> chosen[i] < n
  }

  function Fragments(hits: seq<RetrievedChunk>, chosen: seq<nat>): seq<string>
    requires Within(chosen, |hits|)
  {
    if chosen == [] then []
    else
      var n := |chosen| - 1;
      Fragments(hits, chosen[..n]) + [Format(n + 1, hits[chosen[n]].content)]
  }

  function Citations(hits: seq<RetrievedChunk>, chosen: seq<nat>): seq<Citation>
    requires Within(chosen, |hits|)
  {
    if chosen == [] then []
    else
      var n := |chosen| - 1;
      Citations(hits, chosen[..n]) + [CitationFor(n + 1, hits[chosen[n]])]
  }

  function ContentOf(hits: seq<RetrievedChunk>, chosen: seq<nat>): string
    requires Within(chosen, |hits|)
  {
    Join(Fragments(hits, chosen), "\n\n")
  }

  /** The count of the content made from the chosen hits. */
  function WeightOf(count: string -> nat, hits: seq<RetrievedChunk>, chosen: seq<nat>): nat {
    if Within(chosen, |hits|) then count(ContentOf(hits, chosen)) else 0
  }

  function ContentWeight(count: string -> nat, hits: seq<RetrievedChunk>): seq<nat> -> nat {
    (chosen: seq<nat>) => WeightOf(count, hits, chosen)
  }

  /** Which of the first `n` hits are taken: each whole hit that still fits after the ones taken before it. */
  function Chosen(weigh: seq<nat> -> nat, budget: nat, n: nat): (chosen: seq<nat>)
    ensures Within(chosen, n)
  {
    if n == 0 then []
    else
      var before := Chosen(weigh, budget, n - 1);
      if weigh(before + [n - 1]) <= budget then before + [n - 1] else before
  }

  function ChosenHits(count: string -> nat, hits: seq<RetrievedChunk>, budget: nat): (chosen: seq<nat>)
    ensures Within(chosen, |hits|)
  {
    Chosen(ContentWeight(count, hits), budget, |hits|)
  }

  /** ContextBuilder.build */
  method Build(count: string -> nat, hits: seq<RetrievedChunk>, budget: int) returns (r: Result<BuiltContext, ContextError>)
    ensures r == Err(NegativeBudget) <==> budget < 0
    ensures budget >= 0 ==> (match FirstError(HitError, hits, |hits|) case Some(e) => r == Err(e) case None => r.Ok?)
    ensures r.Ok? ==>
      var chosen := ChosenHits(count, hits, budget);
      && r.value.content == ContentOf(hits, chosen)
      && r.value.citations == Citations(hits, chosen)
      && r.value.usedTokens == if chosen == [] then 0 else count(r.value.content)
  {
    if budget < 0 {
      return Err(NegativeBudget);
    }
    var fragments: seq<string>, citations: seq<Citation>, usedTokens: nat := [], [], 0;
    for n := 0 to |hits|
      invariant BuiltUpTo(count, hits, budget, n, fragments, citations, usedTokens)
      invariant FirstError(HitError, hits, n).None?
    {
      var hit := hits[n];
      var error := HitError(hit);
      NextError(HitError, hits, n, error);
      if error.Some? {
        return Err(error.value);
      }
      var citation := CitationFor(|citations| + 1, hit);
      var fragment := Format(|citations| + 1, hit.content);
      var candidateTokens := count(Join(fragments + [fragment], "\n\n"));
      TryNext(count, hits, budget, n, fragments, citations, usedTokens);
      if candidateTokens <= budget {
        fragments := fragments + [fragment];
        citations := citations + [citation];
        usedTokens := candidateTokens;
      }
    }
    return Ok(BuiltContext(Join(fragments, "\n\n"), citations, usedTokens));
  }

  ghost predicate Built(count: string -> nat, hits: seq<RetrievedChunk>, chosen: seq<nat>, fragments: seq<string>, citations: seq<Citation>, used: nat) {
    && Within(chosen, |hits|) && |citations| == |chosen|
    && fragments == Fragments(hits, chosen) && citations == Citations(hits, chosen)
    && used == if chosen == [] then 0 else count(ContentOf(hits, chosen))
  }

  /** Trying hit `n` counts the content it would give, and taking it gives that content. */
  lemma TryHit(count: string -> nat, hits: seq<RetrievedChunk>, chosen: seq<nat>, fragments: seq<string>, citations: seq<Citation>, used: nat, n: nat)
    requires n < |hits| && Built(count, hits, chosen, fragments, citations, used)
    ensures var tokens := count(Join(fragments + [Format(|citations| + 1, hits[n].content)], "\n\n"));
            && ContentWeight(count, hits)(chosen + [n]) == tokens
            && Built(count, hits, chosen + [n], fragments + [Format(|citations| + 1, hits[n].content)],
                     citations + [CitationFor(|citations| + 1, hits[n])], tokens)
  {}

  /** What the loop holds after the first `n` hits. */
  ghost predicate BuiltUpTo(count: string -> nat, hits: seq<RetrievedChunk>, budget: nat, n: nat, fragments: seq<string>, citations: seq<Citation>, used: nat) {
    n <= |hits| && Built(count, hits, Chosen(ContentWeight(count, hits), budget, n), fragments, citations, used)
  }

  lemma TryNext(count: string -> nat, hits: seq<RetrievedChunk>, budget: nat, n: nat, fragments: seq<string>, citations: seq<Citation>, used: nat)
    requires n < |hits| && BuiltUpTo(count, hits, budget, n, fragments, citations, used)
    ensures var fragment, citation := Format(|citations| + 1, hits[n].content), CitationFor(|citations| + 1, hits[n]);
            var tokens := count(Join(fragments + [fragment], "\n\n"));
            if tokens <= budget then BuiltUpTo(count, hits, budget, n + 1, fragments + [fragment], citations + [citation], tokens)
            else BuiltUpTo(count, hits, budget, n + 1, fragments, citations, used)
  {
    TryHit(count, hits, Chosen(ContentWeight(count, hits), budget, n), fragments, citations, used, n);
  }

  // ---- What the choice means -------------------------------------------------------------

  lemma {:induction false} ChosenInOrder(weigh: seq<nat> -> nat, budget: nat, n: nat)
    ensures forall i, j :: 0 <= i < j < |Chosen(weigh, budget, n)| ==> Chosen(weigh, budget, n)[i] < Chosen(weigh, budget, n)[j]
  {
    if n == 0 {
    } else {
      ChosenInOrder(weigh, budget, n - 1);
    }
  }

  lemma {:induction false} ChosenFit(weigh: seq<nat> -> nat, budget: nat, n: nat)
    requires Chosen(weigh, budget, n) != []
    ensures weigh(Chosen(weigh, budget, n)) <= budget
  {
    if Chosen(weigh, budget, n) == Chosen(weigh, budget, n - 1) {
      ChosenFit(weigh, budget, n - 1);
    }
  }

  /** Earlier choices are never undone: what was chosen before hit `k` is a prefix of the final choice. */
  lemma {:induction false} ChoicesStand(weigh: seq<nat> -> nat, budget: nat, k: nat, n: nat)
    requires k <= n
    ensures var before, all := Chosen(weigh, budget, k), Chosen(weigh, budget, n);
            |before| <= |all| && all[..|before|] == before && forall i :: |before| <= i < |all| ==> all[i] >= k
  {
    if k == n {
    } else {
      ChoicesStand(weigh, budget, k, n - 1);
    }
  }

  /** A hit is left out exactly when adding it to the choices made before it would have gone over budget. */
  lemma OmittedExactlyOnOverflow(weigh: seq<nat> -> nat, budget: nat, k: nat, n: nat)
    requires k < n
    ensures k !in Chosen(weigh, budget, n) <==> weigh(Chosen(weigh, budget, k) + [k]) > budget
  {
    var all, before, next := Chosen(weigh, budget, n), Chosen(weigh, budget, k), Chosen(weigh, budget, k + 1);
    ChoicesStand(weigh, budget, k + 1, n);
    assert forall i :: 0 <= i < |next| ==> all[i] == next[i];
    if weigh(before + [k]) <= budget {
      assert next[|before|] == k;
    }
  }

  /** The citation names the hit's own chunk, document, file and place, and its label is the source's number. */
  ghost predicate Cites(citation: Citation, n: nat, hit: RetrievedChunk) {
    && citation.chunkId == hit.chunkId && citation.documentId == hit.documentId && citation.fileId == hit.fileId && citation.locator == hit.locator
    && |citation.id| > 7 && citation.id[..7] == "source-" && FromDecimal(citation.id[7..]) == n
  }

  lemma CitationCites(n: nat, hit: RetrievedChunk)
    ensures Cites(CitationFor(n, hit), n, hit)
  {
    DecimalReadsBack(n);
    assert SourceId(n)[7..] == Decimal(n);
  }

  /** A fragment is the citation's label in the opening tag, the hit's whole text without outer whitespace, and the closing tag. */
  ghost predicate Wraps(fragment: string, id: string, content: string) {
    fragment == "<knowledge_context source_id=\"" + id + "\">\n" + Strip(content) + "\n</knowledge_context>"
  }

  /** The delivered content after one more choice: what it was, a blank line, and the fragment of the new hit. */
  lemma ContentGrows(hits: seq<RetrievedChunk>, chosen: seq<nat>, k: nat) returns (fragment: string)
    requires Within(chosen, |hits|) && k < |hits|
    ensures Wraps(fragment, SourceId(|chosen| + 1), hits[k].content)
    ensures ContentOf(hits, chosen + [k]) == if chosen == [] then fragment else ContentOf(hits, chosen) + "\n\n" + fragment
  {
    CitationsAreAsMany(hits, chosen);
    fragment := Format(|chosen| + 1, hits[k].content);
    var fragments := Fragments(hits, chosen);
    assert (chosen + [k])[..|chosen|] == chosen;
    assert Fragments(hits, chosen + [k]) == fragments + [fragment];
    assert (fragments + [fragment])[..|fragments|] == fragments;
  }

  lemma {:induction false} LabelsMatch(hits: seq<RetrievedChunk>, chosen: seq<nat>, i: nat)
    requires Within(chosen, |hits|) && i < |chosen|
    ensures |Fragments(hits, chosen)| == |Citations(hits, chosen)| == |chosen|
    ensures Citations(hits, chosen)[i] == CitationFor(i + 1, hits[chosen[i]])
    ensures Cites(Citations(hits, chosen)[i], i + 1, hits[chosen[i]])
    ensures Wraps(Fragments(hits, chosen)[i], Citations(hits, chosen)[i].id, hits[chosen[i]].content)
  {
    var n := |chosen| - 1;
    CitationCites(i + 1, hits[chosen[i]]);
    CitationsAreAsMany(hits, chosen[..n]);
    if i == n {
    } else {
      LabelsMatch(hits, chosen[..n], i);
    }
  }

  lemma {:induction false} CitationsAreAsMany(hits: seq<RetrievedChunk>, chosen: seq<nat>)
    requires Within(chosen, |hits|)
    ensures |Fragments(hits, chosen)| == |Citations(hits, chosen)| == |chosen|
  {
    if chosen == [] {
    } else {
      CitationsAreAsMany(hits, chosen[..|chosen| - 1]);
    }
  }

  /** Citation `i` labels fragment `i` and no other. */
  lemma CitationsAreDistinct(hits: seq<RetrievedChunk>, chosen: seq<nat>, i: nat, j: nat)
    requires Within(chosen, |hits|) && i < |chosen| && j < |chosen|
    ensures |Citations(hits, chosen)| == |chosen|
    ensures Citations(hits, chosen)[i].id == Citations(hits, chosen)[j].id <==> i == j
  {
    LabelsMatch(hits, chosen, i);
    LabelsMatch(hits, chosen, j);
    SourceIdsDiffer(i + 1, j + 1);
  }

  /** The reported use is within budget, and it is the count of the content, unless that is empty and yet costs something. */
  lemma UseIsTheCount(count: string -> nat, hits: seq<RetrievedChunk>, budget: nat, built: BuiltContext)
    requires var chosen := ChosenHits(count, hits, budget);
             && built.content == ContentOf(hits, chosen)
             && built.usedTokens == if chosen == [] then 0 else count(built.content)
    ensures built.usedTokens <= budget
    ensures ChosenHits(count, hits, budget) != [] || count("") == 0 ==> built.usedTokens == count(built.content)
  {
    if ChosenHits(count, hits, budget) != [] {
      ChosenFit(ContentWeight(count, hits), budget, |hits|);
    }
  }

  // ---- The budget --------------------------------------------------------------------------

  datatype ModelConfig = ModelConfig(window: int, maxOutput: int, defaultOutput: int)

  datatype Budget = Budget(window: int, output: int, reservedInput: int, margin: int, available: int)

  datatype BudgetError = EmptyPrompt | EmptyMessages | OutputNotPositive | OutputAboveModel | NoContextSpace

  function TotalCount(count: string -> nat, messages: seq<string>): nat {
    if messages == [] then 0 else TotalCount(count, messages[..|messages| - 1]) + count(messages[|messages| - 1])
  }

  lemma TotalCountGrows(count: string -> nat, messages: seq<string>, message: string)
    ensures TotalCount(count, []) == 0
    ensures TotalCount(count, messages + [message]) == TotalCount(count, messages) + count(message)
  {
    assert (messages + [message])[..|messages|] == messages;
  }

  /** The invariant a budget value checks when it is created. */
  ghost predicate SoundBudget(b: Budget) {
    && b.window >= 0 && b.output >= 0 && b.reservedInput >= 0 && b.margin >= 0 && b.available >= 0
    && b.output + b.reservedInput + b.margin + b.available <= b.window
  }

  function ResolvedOutput(model: ModelConfig, requested: Option<int>): int {
    if requested.Some? then requested.value else model.defaultOutput
  }

  /** RAGTokenBudgetCalculator.calculate */
  function Calculate(count: string -> nat, margin: nat, model: ModelConfig, systemPrompt: string,
                     messages: seq<string>, requested: Option<int>): (r: Result<Budget, BudgetError>)
    ensures r.Ok? ==> SoundBudget(r.value) && r.value.available > 0 && r.value.window == model.window
    ensures r.Ok? <==>
      && !Blank(systemPrompt) && messages != [] && (forall i :: 0 <= i < |messages| ==> !Blank(messages[i]))
      && 0 < ResolvedOutput(model, requested) <= model.maxOutput
      && count(systemPrompt) + TotalCount(count, messages) + ResolvedOutput(model, requested) + margin < model.window
    ensures r.Ok? ==> 0 < r.value.output <= model.maxOutput
    ensures r.Ok? ==>
      && r.value.output == (match requested case Some(n) => n case None => model.defaultOutput)
      && r.value.reservedInput == count(systemPrompt) + TotalCount(count, messages) && r.value.margin == margin
      && r.value.output + r.value.reservedInput + r.value.margin + r.value.available == model.window
    ensures r == Err(EmptyPrompt) <==> Blank(systemPrompt)
    ensures r == Err(EmptyMessages) <==> !Blank(systemPrompt) && (messages == [] || exists i :: 0 <= i < |messages| && Blank(messages[i]))
    ensures r == Err(OutputNotPositive) ==> ResolvedOutput(model, requested) <= 0
    ensures r == Err(OutputAboveModel) ==> ResolvedOutput(model, requested) > model.maxOutput
    ensures r == Err(NoContextSpace) ==>
              count(systemPrompt) + TotalCount(count, messages) + ResolvedOutput(model, requested) + margin >= model.window
  {
    StripOfBlank(systemPrompt);
    assert forall i {:trigger messages[i]} :: 0 <= i < |messages| ==> (Strip(messages[i]) == [] <==> Blank(messages[i])) by {
      forall i | 0 <= i < |messages| ensures Strip(messages[i]) == [] <==> Blank(messages[i]) {
        StripOfBlank(messages[i]);
      }
    }
    if Strip(systemPrompt) == [] then Err(EmptyPrompt)
    else if messages == [] || exists i :: 0 <= i < |messages| && Strip(messages[i]) == [] then Err(EmptyMessages)
    else
      var output := ResolvedOutput(model, requested);
      if output <= 0 then Err(OutputNotPositive)
      else if output > model.maxOutput then Err(OutputAboveModel)
      else
        var reserved := count(systemPrompt) + TotalCount(count, messages);
        var available := model.window - reserved - output - margin;
        if available <= 0 then Err(NoContextSpace)
        else Ok(Budget(model.window, output, reserved, margin, available))
  }

  datatype RetrieveError = BadBudget(budget: BudgetError) | BadContext(context: ContextError)

  /** retrieve_context: whatever is retrieved, prompt, context, output and margin fit the model's window. */
  method RetrieveContext(count: string -> nat, margin: nat, model: ModelConfig, systemPrompt: string, query: string,
                         requested: Option<int>, hits: seq<RetrievedChunk>)
    returns (r: Result<BuiltContext, RetrieveError>)
    ensures r.Err? && r.error.BadBudget? <==> Calculate(count, margin, model, systemPrompt, [query], requested).Err?
    ensures r.Ok? ==>
      var output := ResolvedOutput(model, requested);
      && (count("") == 0 ==> r.value.usedTokens == count(r.value.content))
      && (r.value.citations != [] ==> r.value.usedTokens == count(r.value.content))
      && 0 < output <= model.maxOutput
      && r.value.usedTokens + count(systemPrompt) + count(query) + output + margin <= model.window
    ensures r != Err(BadContext(NegativeBudget))
    ensures Calculate(count, margin, model, systemPrompt, [query], requested).Ok? ==>
      (r.Ok? <==> FirstError(HitError, hits, |hits|).None?)
    ensures r.Ok? ==>
      var budget := Calculate(count, margin, model, systemPrompt, [query], requested).value.available;
      r.value.content == ContentOf(hits, ChosenHits(count, hits, budget)) && r.value.citations == Citations(hits, ChosenHits(count, hits, budget))
  {
    var budget := Calculate(count, margin, model, systemPrompt, [query], requested);
    if budget.Err? {
      return Err(BadBudget(budget.error));
    }
    assert [query][..0] == [];
    assert TotalCount(count, [query]) == count(query);
    var built := Build(count, hits, budget.value.available);
    if built.Err? {
      return Err(BadContext(built.error));
    }
    UseIsTheCount(count, hits, budget.value.available, built.value);
    CitationsAreAsMany(hits, ChosenHits(count, hits, budget.value.available));
    return Ok(built.value);
  }
}
