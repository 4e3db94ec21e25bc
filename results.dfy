/**
 * Result aggregation in `handleGenerate`: the two settled provider calls become the
 * ordered list of `CodeResult` the section displays. The network, `Promise.allSettled`
 * and the clock are outside the model: each settled call is an input value and each
 * `Date.now()` reading is a parameter.
 */
module Results {
  import opened JsStrings

  /** The two generation endpoints, in the order the section calls them. */
  datatype Provider = Gemini | Groq

  /** One generated component shown as a card. */
  datatype CodeResult = CodeResult(id: string, code: string, provider: Provider)

  /** What `response.json()` yields for a fulfilled call. */
  datatype Body =
    | Unparsable                          // `.json()` throws: the body is not JSON
    | Parsed(success: bool, code: string) // `{ success, code }`; `code` is read only on success

  /** How one `fetch` settled under `Promise.allSettled`. */
  datatype Settled = Rejected | Fulfilled(body: Body)

  /** What the `try` block produces: the assembled list, or an exception caught by `catch`. */
  datatype Assembly = Assembled(entries: seq<CodeResult>) | Aborted

  /** The provider tag, also the prefix of the result id. */
  function ProviderName(p: Provider): string {
    match p
    case Gemini => "gemini"
    case Groq => "groq"
  }

  /** The id of a result: the provider name, a dash, and the millisecond timestamp. */
  function IdFor(p: Provider, now: nat): (id: string)
    ensures |id| > |ProviderName(p)| + 1
    ensures id[..|ProviderName(p)|] == ProviderName(p) && id[|ProviderName(p)|] == '-'
    ensures IsDigits(id[|ProviderName(p)| + 1..])
    ensures DecimalValue(id[|ProviderName(p)| + 1..]) == now
  {
    var id := ProviderName(p) + "-" + Decimal(now);
    assert id[|ProviderName(p)| + 1..] == Decimal(now);
    DecimalRoundTrip(now);
    id
  }

  /** The call was fulfilled and its body reported `success`. */
  predicate Reports(o: Settled) {
    o.Fulfilled? && o.body.Parsed? && o.body.success
  }

  /** Reading the body of this call throws. */
  predicate Throws(o: Settled) {
    o.Fulfilled? && o.body.Unparsable?
  }

  /** Position of a provider in the call order. */
  function Rank(p: Provider): nat {
    match p
    case Gemini => 0
    case Groq => 1
  }

  /**
   * The list a card grid may show: at most one entry per configured provider, entries
   * strictly in provider call order (gemini before groq), ids distinct.
   */
  ghost predicate WellFormed(rs: seq<CodeResult>) {
    && |rs| <= 2
    && (forall i, j :: 0 <= i < j < |rs| ==> Rank(rs[i].provider) < Rank(rs[j].provider))
    && (forall i, j :: 0 <= i < j < |rs| ==> rs[i].id != rs[j].id)
  }

  /** Ids of different providers never collide, whatever the timestamps. */
  lemma IdsOfProvidersDiffer(t1: nat, t2: nat)
    ensures IdFor(Gemini, t1) != IdFor(Groq, t2)
  {
    assert IdFor(Gemini, t1)[1] == 'e';
    assert IdFor(Groq, t2)[1] == 'r';
  }

  /** The entry one settled call contributes. */
  function Entry(p: Provider, o: Settled, now: nat): seq<CodeResult> {
    if Reports(o) then [CodeResult(IdFor(p, now), o.body.code, p)] else []
  }

  /**
   * The reference definition of the `try` block: it aborts when reading either body
   * throws; otherwise each provider that reported success contributes one entry,
   * gemini first.
   */
  function Aggregate(gemini: Settled, groq: Settled, geminiNow: nat, groqNow: nat): (r: Assembly)
    ensures r.Aborted? <==> Throws(gemini) || Throws(groq)
    ensures r.Assembled? ==> WellFormed(r.entries)
    ensures r.Assembled? ==>
      |r.entries| == (if Reports(gemini) then 1 else 0) + (if Reports(groq) then 1 else 0)
    ensures r.Assembled? ==> forall k :: 0 <= k < |r.entries| && r.entries[k].provider == Gemini ==>
      Reports(gemini) && r.entries[k] == CodeResult(IdFor(Gemini, geminiNow), gemini.body.code, Gemini)
    ensures r.Assembled? ==> forall k :: 0 <= k < |r.entries| && r.entries[k].provider == Groq ==>
      Reports(groq) && r.entries[k] == CodeResult(IdFor(Groq, groqNow), groq.body.code, Groq)
  {
    IdsOfProvidersDiffer(geminiNow, groqNow);
    if Throws(gemini) || Throws(groq) then Aborted
    else Assembled(Entry(Gemini, gemini, geminiNow) + Entry(Groq, groq, groqNow))
  }

  /** The list the section shows after the cycle: an aborted cycle leaves the reset list, empty. */
  function Shown(a: Assembly): (shown: seq<CodeResult>)
    ensures shown == [] <==> a.Aborted? || a.entries == []
    ensures shown != [] ==> shown == a.entries
  {
    match a
    case Assembled(entries) => entries
    case Aborted => []
  }

  /**
   * The outcome classes of a cycle: both providers succeed, neither does, or a body
   * cannot be read, which discards even an entry already pushed.
   */
  lemma ShownCounts(gemini: Settled, groq: Settled, geminiNow: nat, groqNow: nat)
    ensures Reports(gemini) && Reports(groq) ==>
      Shown(Aggregate(gemini, groq, geminiNow, groqNow)) ==
        [CodeResult(IdFor(Gemini, geminiNow), gemini.body.code, Gemini),
         CodeResult(IdFor(Groq, groqNow), groq.body.code, Groq)]
    ensures !Reports(gemini) && !Reports(groq) ==> Shown(Aggregate(gemini, groq, geminiNow, groqNow)) == []
    ensures Throws(gemini) || Throws(groq) ==> Shown(Aggregate(gemini, groq, geminiNow, groqNow)) == []
    ensures |Shown(Aggregate(gemini, groq, geminiNow, groqNow))| <= 2
  {
    if !Throws(gemini) && !Throws(groq) {
      assert Shown(Aggregate(gemini, groq, geminiNow, groqNow)) ==
        Entry(Gemini, gemini, geminiNow) + Entry(Groq, groq, groqNow);
    }
  }

  /**
   * The `try` block as written: `newResults` starts empty and is pushed to once per
   * provider that reported success; reading a body that is not JSON throws, which
   * discards whatever was pushed.
   */
  method CollectResults(gemini: Settled, groq: Settled, geminiNow: nat, groqNow: nat)
    returns (outcome: Assembly)
    ensures outcome == Aggregate(gemini, groq, geminiNow, groqNow)
  {
    var newResults: seq<CodeResult> := [];
    if gemini.Fulfilled? {
      if gemini.body.Unparsable? {
        return Aborted;
      }
      if gemini.body.success {
        newResults := newResults + [CodeResult(IdFor(Gemini, geminiNow), gemini.body.code, Gemini)];
      }
    }
    assert newResults == Entry(Gemini, gemini, geminiNow);
    if groq.Fulfilled? {
      if groq.body.Unparsable? {
        return Aborted;
      }
      if groq.body.success {
        newResults := newResults + [CodeResult(IdFor(Groq, groqNow), groq.body.code, Groq)];
      }
    }
    assert newResults == Entry(Gemini, gemini, geminiNow) + Entry(Groq, groq, groqNow);
    outcome := Assembled(newResults);
  }
}
