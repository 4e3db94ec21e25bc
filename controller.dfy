/**
 * The state of `HeroGeneratorSection` and its event handlers. Each `useState` slot is
 * a field and each handler a method; a network reply, a clipboard write that succeeds
 * or fails and the firing of the 2-second copy timer are inputs or events of their own.
 */
module Controller {
  import opened Wrappers
  import opened JsStrings
  import opened Results
  import opened Presenter

  class HeroGenerator {
    var prompt: string
    var loading: bool
    var results: seq<CodeResult>
    var copiedId: Option<string>
    var activeTab: map<string, Tab>

    /**
     * While a cycle is in flight no result is shown, so stale results never mix with
     * new ones; the shown list is always well formed.
     */
    ghost predicate Valid()
      reads this
    {
      (loading ==> results == []) && WellFormed(results)
    }

    /** The initial values of the five `useState` slots. */
    constructor ()
      ensures Valid()
      ensures prompt == [] && !loading && results == [] && copiedId == None && activeTab == map[]
    {
      prompt := [];
      loading := false;
      results := [];
      copiedId := None;
      activeTab := map[];
    }

    /** Typing in the prompt box. */
    method EditPrompt(text: string)
      requires Valid()
      modifies this`prompt
      ensures Valid() && prompt == text
    {
      prompt := text;
    }

    /** `handleTemplateClick`: a known shortcut fills in its description, any other text is taken as is. */
    method TemplateClick(template: string)
      requires Valid()
      modifies this`prompt
      ensures Valid() && prompt == TemplateFor(template)
    {
      prompt := TemplateFor(template);
    }

    /**
     * The synchronous start of `handleGenerate`: a blank prompt changes nothing;
     * otherwise the section enters the loading state with an empty result list.
     */
    method BeginGenerate() returns (started: bool)
      requires Valid()
      modifies this`loading, this`results
      ensures Valid()
      ensures started <==> !IsBlank(prompt)
      ensures started ==> loading && results == []
      ensures !started ==> loading == old(loading) && results == old(results)
    {
      TrimEmptyIffBlank(prompt);
      if Trim(prompt) == [] {
        return false;
      }
      loading := true;
      results := [];
      started := true;
    }

    /**
     * The end of `handleGenerate` once both calls have settled: the assembled list is
     * shown, an exception leaves the list as reset, and `finally` ends the loading state.
     */
    method FinishGenerate(gemini: Settled, groq: Settled, geminiNow: nat, groqNow: nat)
      requires Valid() && loading
      modifies this`loading, this`results
      ensures Valid() && !loading
      ensures results == Shown(Aggregate(gemini, groq, geminiNow, groqNow))
    {
      var outcome := CollectResults(gemini, groq, geminiNow, groqNow);
      if outcome.Assembled? {
        results := outcome.entries;
      }
      loading := false;
    }

    /** A whole generation cycle with no other event in between. */
    method Generate(gemini: Settled, groq: Settled, geminiNow: nat, groqNow: nat) returns (started: bool)
      requires Valid()
      modifies this`loading, this`results
      ensures Valid()
      ensures started <==> !IsBlank(prompt)
      ensures !started ==> loading == old(loading) && results == old(results)
      ensures started ==> !loading && results == Shown(Aggregate(gemini, groq, geminiNow, groqNow))
    {
      started := BeginGenerate();
      if started {
        FinishGenerate(gemini, groq, geminiNow, groqNow);
      }
    }

    /** The view a card currently shows: its code only once its Code button was the last clicked. */
    function CurrentTab(id: string): (t: Tab)
      reads this
      ensures id !in activeTab ==> t == Preview
      ensures t == Code <==> id in activeTab && activeTab[id] == Code
    {
      TabOf(activeTab, id)
    }

    /** The Preview and Code buttons of a card: only that card's entry changes. */
    method SelectTab(id: string, tab: Tab)
      requires Valid()
      modifies this`activeTab
      ensures Valid() && activeTab == WithTab(old(activeTab), id, tab)
    {
      activeTab := WithTab(activeTab, id, tab);
    }

    /**
     * `handleCopyCode` for the card at `index`: the card's code is handed to the
     * clipboard exactly; a successful write marks the card as copied, a failed one
     * changes nothing.
     */
    method CopyCode(index: nat, clipboardOk: bool) returns (clipboardText: string)
      requires Valid() && index < |results|
      modifies this`copiedId
      ensures Valid() && clipboardText == results[index].code
      ensures copiedId == if clipboardOk then Some(results[index].id) else old(copiedId)
    {
      clipboardText := results[index].code;
      if clipboardOk {
        copiedId := Some(results[index].id);
      }
    }

    /** The timer set by a successful copy fires: the marker is cleared, whichever card holds it. */
    method CopyExpired()
      requires Valid()
      modifies this`copiedId
      ensures Valid() && copiedId == None
    {
      copiedId := None;
    }

    /** `handleDownloadCode` for the card at `index`: the file holds the card's code exactly. */
    method DownloadCode(index: nat) returns (file: DownloadFile)
      requires index < |results|
      ensures file.content == results[index].code
      ensures file.name == DownloadName(index)
    {
      file := DownloadFile(DownloadName(index), results[index].code);
    }
  }

  /**
   * A session in which the Hero shortcut is clicked, both providers answer, the first
   * card is switched to its code view and downloaded.
   */
  method HeroSession(geminiCode: string, groqCode: string, now: nat)
    returns (shown: seq<CodeResult>, tab: Tab, file: DownloadFile)
    ensures |shown| == 2
    ensures shown[0].provider == Gemini && shown[0].code == geminiCode
    ensures shown[1].provider == Groq && shown[1].code == groqCode
    ensures shown[0].id != shown[1].id
    ensures tab == Code
    ensures file == DownloadFile("component-v1.tsx", geminiCode)
  {
    var section := new HeroGenerator();
    section.TemplateClick("Hero");
    assert !IsBlank(section.prompt) by {
      KnownTemplateNotBlank("Hero");
      TrimEmptyIffBlank(section.prompt);
    }
    var gemini, groq := Fulfilled(Parsed(true, geminiCode)), Fulfilled(Parsed(true, groqCode));
    var first := CodeResult(IdFor(Gemini, now), geminiCode, Gemini);
    var second := CodeResult(IdFor(Groq, now), groqCode, Groq);
    var expected := Shown(Aggregate(gemini, groq, now, now));
    assert expected == [first, second] by { ShownCounts(gemini, groq, now, now); }
    var started := section.Generate(gemini, groq, now, now);
    assert section.results == expected;
    shown := section.results;
    IdsOfProvidersDiffer(now, now);
    section.SelectTab(first.id, Code);
    tab := section.CurrentTab(first.id);
    file := section.DownloadCode(0);
    assert file.name == "component-v1.tsx" by { FirstDownloadName(); }
  }

  /**
   * Two copies in quick succession: the timer scheduled by the first copy also clears
   * the marker set by the second, since the expiry does not check which card it was
   * scheduled for and the earlier timer is not cancelled.
   */
  method CopyTwiceSession(geminiCode: string, groqCode: string, now: nat)
    returns (markedAfterSecondCopy: Option<string>, markedAfterFirstTimer: Option<string>)
    ensures markedAfterSecondCopy == Some(IdFor(Groq, now))
    ensures markedAfterFirstTimer == None
  {
    var section := new HeroGenerator();
    section.EditPrompt("Hero");
    assert !IsSpace(section.prompt[0]);
    var gemini, groq := Fulfilled(Parsed(true, geminiCode)), Fulfilled(Parsed(true, groqCode));
    var first := CodeResult(IdFor(Gemini, now), geminiCode, Gemini);
    var second := CodeResult(IdFor(Groq, now), groqCode, Groq);
    var expected := Shown(Aggregate(gemini, groq, now, now));
    assert expected == [first, second] by { ShownCounts(gemini, groq, now, now); }
    var started := section.Generate(gemini, groq, now, now);
    assert section.results == expected;
    var _ := section.CopyCode(0, true);
    var _ := section.CopyCode(1, true);
    markedAfterSecondCopy := section.copiedId;
    section.CopyExpired();
    markedAfterFirstTimer := section.copiedId;
  }
}
