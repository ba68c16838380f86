/**
 * Whole runs of the popup: concrete voice lists and event orders, with what
 * the host receives and what the popup shows at the end.
 */
module Scenarios {
  import opened Wrappers
  import opened JsString
  import opened VoiceCatalog
  import opened ReadingUi
  import opened Popup

  const Alice: Voice := Voice("Alice", "en-US")
  const Ravi: Voice := Voice("Ravi", "en-IN")
  const Klaus: Voice := Voice("Klaus", "de-DE")

  lemma KlausNotPreferred()
    ensures !IsPreferred(Klaus)
  {
    forall k | 0 <= k < |PreferredTags|
      ensures !Includes(Klaus.lang, PreferredTags[k])
    {
      assert Klaus.lang[..5] != PreferredTags[k] by { assert Klaus.lang[0] != PreferredTags[k][0]; }
      assert !Includes(Klaus.lang[1..], PreferredTags[k]);
    }
    PreferredTagsDisjuncts(Klaus);
  }

  /** Alice (en-US) and Ravi (en-IN) pass the filter, Klaus (de-DE) does not; the host's order stays. */
  lemma ThreeVoiceFilter()
    ensures Filter([Alice, Ravi, Klaus]) == [Alice, Ravi]
  {
    assert IsPreferred(Alice) by {
      assert Alice.lang[..5] == "en-US";
    }
    assert IsPreferred(Ravi) by {
      assert Ravi.lang[..5] == "en-IN";
    }
    KlausNotPreferred();
    assert Filter([Klaus]) == [] by { assert [Klaus][1..] == []; }
    assert Filter([Ravi, Klaus]) == [Ravi] by { assert [Ravi, Klaus][1..] == [Klaus]; }
    assert [Alice, Ravi, Klaus][1..] == [Ravi, Klaus];
  }

  /** The dropdown for those three voices shows "Alice (en-US)" and "Ravi (en-IN)". */
  lemma ThreeVoiceDropdown()
    ensures Dropdown([Alice, Ravi, Klaus]) ==
            [VoiceOption("Alice", "Alice (en-US)"), VoiceOption("Ravi", "Ravi (en-IN)")]
  {
    ThreeVoiceFilter();
    assert OptionFor(Alice) == VoiceOption("Alice", "Alice (en-US)");
    assert OptionFor(Ravi) == VoiceOption("Ravi", "Ravi (en-IN)");
  }

  /** Selecting "Ravi" over the three-voice cache gives Ravi. */
  lemma ResolveRavi()
    ensures ResolveVoice([Alice, Ravi, Klaus], "Ravi") == Some(Ravi)
  {
    var vs := [Alice, Ravi, Klaus];
    assert vs[0].name != "Ravi" && vs[1] == Ravi;
  }

  /** With only a non-preferred voice cached, the dropdown is empty and its value
      is the empty string, yet the utterance gets that voice as the fallback. */
  lemma FallbackAbsentFromDropdown()
    ensures Dropdown([Klaus]) == []
    ensures ResolveVoice([Klaus], "") == Some(Klaus)
  {
    KlausNotPreferred();
    assert [Klaus][1..] == [];
    assert Filter([Klaus]) == [];
  }

  /** Choosing "Ravi (en-IN)" resolves to an earlier, filtered-out voice of the same name. */
  lemma SameNameResolvesToEarlierVoice()
    ensures Dropdown([Voice("Ravi", "de-DE"), Ravi]) == [VoiceOption("Ravi", "Ravi (en-IN)")]
    ensures ResolveVoice([Voice("Ravi", "de-DE"), Ravi], "Ravi") == Some(Voice("Ravi", "de-DE"))
  {
    var vs := [Voice("Ravi", "de-DE"), Ravi];
    assert !IsPreferred(vs[0]) by {
      assert Klaus.lang == vs[0].lang;
      KlausNotPreferred();
    }
    assert IsPreferred(Ravi) by { assert Ravi.lang[..5] == "en-IN"; }
    assert vs[1..] == [Ravi] && [Ravi][1..] == [];
    assert Filter([Ravi]) == [Ravi];
    assert Filter(vs) == [Ravi];
    assert OptionFor(Ravi) == VoiceOption("Ravi", "Ravi (en-IN)");
  }


  method InitialPopup() returns (c: Controller)
    ensures fresh(c) && ResolveVoice(c.voices, "Ravi") == Some(Ravi)
    ensures |c.options| == 2 && c.options[1].value == "Ravi" && c.selection == "Alice"
    ensures !c.isReading && c.hostCalls == [] && c.pendingExtractions == 0
    ensures c.rateInput == "1" && c.rateIsFinite
  {
    ThreeVoiceDropdown();
    ResolveRavi();
    c := new Controller([Alice, Ravi, Klaus], View(false, InactiveText, {PrimaryClass}), "1", true);
  }

  /** Choose Ravi, set the rate to 1.5 and click start. */
  method RaviAtOnePointFive() returns (c: Controller)
    ensures fresh(c) && ResolveVoice(c.voices, c.selection) == Some(Ravi)
    ensures c.rateInput == "1.5" && c.rateIsFinite
    ensures !c.isReading && c.hostCalls == [] && c.pendingExtractions == 1
  {
    c := InitialPopup();
    ghost var cache := c.voices;
    assert ResolveVoice(cache, "Ravi") == Some(Ravi);
    c.ChooseVoice(1);
    assert c.voices == cache && c.selection == "Ravi";
    c.SetRate("1.5", true);
    c.StartClick();
    assert c.voices == cache && c.selection == "Ravi";
  }

  /** Choose Ravi, set the rate to 1.5, start on a page whose text has no
      surrounding whitespace (such as "Hello world"): one utterance of exactly
      that text goes to the host; after onstart the UI is active, after onend it
      is inactive and the popup is no longer reading. */
  method ReadPageWithRavi(page: string) returns (calls: seq<HostCall>, during: View, after: View, readingAfter: bool)
    requires Unpadded(page)
    ensures calls == [Speak(Utterance(page, Some(Ravi), "1.5"))]
    ensures ShowsActive(during) && ShowsInactive(after) && !readingAfter
  {
    var c := RaviAtOnePointFive();
    TrimKeepsUnpadded(page);
    assert PageText(Some(page)) == page;
    ghost var expected := Utterance(PageText(Some(page)), ResolveVoice(c.voices, c.selection), c.rateInput);
    assert expected == Utterance(page, Some(Ravi), "1.5");
    c.OnExtractionResult(Some(page));
    assert c.hostCalls == [] + [Speak(expected)];
    calls := c.hostCalls;
    c.OnStart();
    during := c.CurrentView();
    c.OnEnd();
    after, readingAfter := c.CurrentView(), c.isReading;
  }

  /** The same run on the page text "Hello world". */
  method ReadHelloWorld() returns (calls: seq<HostCall>)
    ensures calls == [Speak(Utterance("Hello world", Some(Ravi), "1.5"))]
  {
    var during, after, readingAfter;
    calls, during, after, readingAfter := ReadPageWithRavi("Hello world");
  }

  /** Two start clicks before the host reports onstart are both let through
      (`isReading` is still false), so two utterances reach the host. */
  method DoubleStartBeforeOnStart(page: string) returns (calls: seq<HostCall>)
    requires Unpadded(page)
    ensures |calls| == 2 && calls[0].Speak? && calls[1].Speak?
    ensures calls[0].utterance.text == calls[1].utterance.text == page
  {
    var c := InitialPopup();
    c.StartClick();
    c.StartClick();
    TrimKeepsUnpadded(page);
    assert PageText(Some(page)) == page;
    c.OnExtractionResult(Some(page));
    c.OnExtractionResult(Some(page));
    calls := c.hostCalls;
  }

  /** Stop before the host reports onstart: a cancel follows the utterance,
      the popup is idle and inactive at once, and a late onend for the
      cancelled utterance changes neither the flag nor the UI. */
  method StopBeforeStarted(page: string) returns (calls: seq<HostCall>, stopped: View, late: View, readingLate: bool)
    requires Unpadded(page)
    ensures |calls| == 2 && calls[0].Speak? && calls[1] == Cancel
    ensures ShowsInactive(stopped) && late == stopped && !readingLate
  {
    var c := InitialPopup();
    c.StartClick();
    TrimKeepsUnpadded(page);
    assert PageText(Some(page)) == page;
    c.OnExtractionResult(Some(page));
    c.StopReading();
    stopped := c.CurrentView();
    c.OnEnd();
    ProjectIdempotent(c.CurrentView(), false);
    ProjectFixesShown(stopped, false);
    late, calls, readingLate := c.CurrentView(), c.hostCalls, c.isReading;
  }

  /** A page whose text is only whitespace: nothing reaches the host and the
      UI shows the inactive appearance. */
  method BlankPage(page: string) returns (calls: seq<HostCall>, shown: View, reading: bool)
    requires AllWhitespace(page)
    ensures calls == [] && ShowsInactive(shown) && !reading
  {
    var c := InitialPopup();
    c.StartClick();
    assert PageText(Some(page)) == "";
    c.OnExtractionResult(Some(page));
    calls, shown, reading := c.hostCalls, c.CurrentView(), c.isReading;
  }

  /** Two start clicks, the first page text spoken and started, then a blank
      result for the second: the UI shows the inactive appearance although
      `isReading` is still true, and nothing more reaches the host. */
  method BlankResultWhileReading(page: string) returns (calls: seq<HostCall>, shown: View, reading: bool)
    requires Unpadded(page)
    ensures |calls| == 1 && calls[0].Speak?
    ensures ShowsInactive(shown) && reading
  {
    var c := InitialPopup();
    c.StartClick();
    c.StartClick();
    TrimKeepsUnpadded(page);
    assert PageText(Some(page)) == page;
    c.OnExtractionResult(Some(page));
    c.OnStart();
    c.OnExtractionResult(None);
    calls, shown, reading := c.hostCalls, c.CurrentView(), c.isReading;
  }

  /** A rate text that does not parse to a finite number (such as the empty
      text): the rate assignment throws before `speak`, so nothing reaches the
      host and the popup neither reads nor changes its UI. */
  method NonNumericRate(page: string) returns (calls: seq<HostCall>, before: View, shown: View, reading: bool)
    requires Unpadded(page)
    ensures calls == [] && shown == before && !reading
  {
    var c := InitialPopup();
    c.SetRate("", false);
    c.StartClick();
    TrimKeepsUnpadded(page);
    assert PageText(Some(page)) == page;
    before := c.CurrentView();
    c.OnExtractionResult(Some(page));
    calls, shown, reading := c.hostCalls, c.CurrentView(), c.isReading;
  }

  /** Stop while the page-text extraction is still pending: the cancel goes out
      first, and the late extraction result still reaches `speakText`, which
      finds `isReading` false and sends the utterance after the cancel. */
  method StopBeforeExtraction(page: string) returns (calls: seq<HostCall>)
    requires Unpadded(page)
    ensures |calls| == 2 && calls[0] == Cancel && calls[1].Speak?
    ensures calls[1].utterance.text == page
  {
    var c := InitialPopup();
    c.StartClick();
    c.StopReading();
    TrimKeepsUnpadded(page);
    assert PageText(Some(page)) == page;
    c.OnExtractionResult(Some(page));
    calls := c.hostCalls;
  }

  /** Start without choosing a voice: the dropdown still holds its first entry,
      so the utterance carries Alice at the initial rate. */
  method StartWithoutChoosing(page: string) returns (calls: seq<HostCall>)
    requires Unpadded(page)
    ensures calls == [Speak(Utterance(page, Some(Alice), "1"))]
  {
    ThreeVoiceDropdown();
    var c := new Controller([Alice, Ravi, Klaus], View(false, InactiveText, {PrimaryClass}), "1", true);
    ghost var cache := c.voices;
    assert cache[0] == Alice;
    assert ResolveVoice(cache, "Alice") == Some(Alice);
    c.StartClick();
    assert c.voices == cache && c.selection == "Alice";
    TrimKeepsUnpadded(page);
    assert PageText(Some(page)) == page;
    c.OnExtractionResult(Some(page));
    assert c.hostCalls == [] + [Speak(Utterance(page, Some(Alice), "1"))];
    calls := c.hostCalls;
  }

  /** Stopping twice while an utterance is playing: the first stop switches the
      UI from active to inactive and clears the flag; the second leaves both as
      the first left them, and sends a second cancel. */
  method StopTwice(page: string) returns (playing: View, once: View, twice: View, reading: bool, calls: seq<HostCall>)
    requires Unpadded(page)
    ensures ShowsActive(playing) && ShowsInactive(once)
    ensures once == twice && !reading
    ensures |calls| == 3 && calls[0].Speak? && calls[1] == Cancel && calls[2] == Cancel
  {
    var c := InitialPopup();
    c.StartClick();
    TrimKeepsUnpadded(page);
    assert PageText(Some(page)) == page;
    c.OnExtractionResult(Some(page));
    c.OnStart();
    playing := c.CurrentView();
    c.StopReading();
    once := c.CurrentView();
    c.StopReading();
    ProjectFixesShown(once, false);
    twice, reading, calls := c.CurrentView(), c.isReading, c.hostCalls;
  }
}
