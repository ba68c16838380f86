/**
 * The popup controller: the cached voice list, the voice dropdown, the
 * reading flag and the projected UI as fields of one object, and each event
 * handler of the popup script as a method the environment calls one at a time.
 */
module Popup {
  import opened Wrappers
  import opened JsString
  import opened VoiceCatalog
  import opened ReadingUi

  /** A speech request handed to the host: the text, the voice (None leaves the
      host's default) and the raw text of the rate input. */
  datatype Utterance = Utterance(text: string, voice: Option<Voice>, rate: string)

  /** A call the popup makes on the host's speech engine. */
  datatype HostCall = Speak(utterance: Utterance) | Cancel

  /** The page text an extraction result yields: the trimmed result, or the
      empty string when the result is absent (both are falsy for the script). */
  function PageText(result: Option<string>): (text: string)
    ensures result.None? ==> text == ""
    ensures result.Some? ==> (text == "" <==> AllWhitespace(result.value))
  {
    match result
    case None => ""
    case Some(s) => TrimEmptyIff(s); Trim(s)
  }

  class Controller {
    /** The cached host voice list (`voices`). */
    var voices: seq<Voice>
    /** The entries of the voice dropdown, in document order. */
    var options: seq<VoiceOption>
    /** The dropdown's current value. */
    var selection: string
    /** The text in the rate input. */
    var rateInput: string
    /** Whether `parseFloat` of that text is a finite number. Assigning a NaN
        or infinite rate to an utterance throws, so nothing is spoken then. */
    var rateIsFinite: bool
    /** `isReading`. */
    var isReading: bool
    var indicatorVisible: bool
    var buttonText: string
    var classes: set<string>
    /** Every call made on the host's speech engine, oldest first. */
    var hostCalls: seq<HostCall>
    /** Start requests whose page-text extraction has not yet reported back. */
    var pendingExtractions: nat

    /** The visible UI fields as one value. */
    function CurrentView(): View
      reads this
    {
      View(indicatorVisible, buttonText, classes)
    }

    /** The dropdown always reflects the cached voice list, and its value is
        one of its entries' values (the empty string when it has none). */
    ghost predicate Valid()
      reads this`voices, this`options, this`selection
    {
      options == Dropdown(voices) &&
      (options == [] ==> selection == "") &&
      (options != [] ==> exists k :: 0 <= k < |options| && options[k].value == selection)
    }

    /** The popup as its script leaves it after loading: not reading, nothing
        sent to the host, and the voices loaded once. The initial UI is the
        popup's markup, which is a parameter here. */
    constructor (hostVoices: seq<Voice>, markup: View, rate: string, rateFinite: bool)
      ensures Valid()
      ensures voices == hostVoices && options == Dropdown(hostVoices)
      ensures selection == if options == [] then "" else options[0].value
      ensures !isReading && hostCalls == [] && pendingExtractions == 0
      ensures CurrentView() == markup && rateInput == rate && rateIsFinite == rateFinite
    {
      voices, options, selection := [], [], "";
      rateInput, rateIsFinite := rate, rateFinite;
      isReading := false;
      indicatorVisible, buttonText, classes := markup.indicatorVisible, markup.buttonText, markup.classes;
      hostCalls := [];
      pendingExtractions := 0;
      new;
      LoadVoices(hostVoices);
    }

    /** `loadVoices`: replace the cached list, clear the dropdown, then append one
        entry per preferred voice. Emptying and refilling the dropdown resets its
        value to the first entry's value (the empty string when there is none). */
    method LoadVoices(hostVoices: seq<Voice>)
      modifies this`voices, this`options, this`selection
      ensures Valid()
      ensures voices == hostVoices
      ensures options == Dropdown(hostVoices)
      ensures selection == if options == [] then "" else options[0].value
    {
      voices := hostVoices;
      options := [];
      var kept := Filter(voices);
      for i := 0 to |kept|
        invariant voices == hostVoices
        invariant options == Render(kept[..i])
      {
        assert kept[..i + 1] == kept[..i] + [kept[i]];
        RenderSnoc(kept[..i], kept[i]);
        options := options + [OptionFor(kept[i])];
      }
      assert kept[..|kept|] == kept;
      selection := if options == [] then "" else options[0].value;
      assert options != [] ==> options[0].value == selection;
    }

    /** The user picks entry k of the dropdown. */
    method ChooseVoice(k: nat)
      requires k < |options|
      modifies this`selection
      ensures old(Valid()) ==> Valid()
      ensures selection == options[k].value
    {
      selection := options[k].value;
    }

    /** The user edits the rate input; `finite` is the outcome of parsing the
        new text as a number. */
    method SetRate(text: string, finite: bool)
      modifies this`rateInput, this`rateIsFinite
      ensures rateInput == text && rateIsFinite == finite
    {
      rateInput, rateIsFinite := text, finite;
    }

    /** `updateUIState(reading)`. */
    method UpdateUIState(reading: bool)
      modifies this`indicatorVisible, this`buttonText, this`classes
      ensures CurrentView() == Project(old(CurrentView()), reading)
    {
      if reading {
        indicatorVisible := true;
        buttonText := ActiveText;
        classes := classes - {PrimaryClass};
        classes := classes + {SuccessClass};
      } else {
        indicatorVisible := false;
        buttonText := InactiveText;
        classes := classes + {PrimaryClass};
        classes := classes - {SuccessClass};
      }
    }

    /** A click on the start button: a new page-text extraction is requested
        only while not reading. */
    method StartClick()
      modifies this`pendingExtractions
      ensures pendingExtractions == old(pendingExtractions) + (if isReading then 0 else 1)
    {
      if !isReading {
        pendingExtractions := pendingExtractions + 1;
      }
    }

    /** `speakText`: nothing is sent for empty text or while reading, nor when
        the rate does not parse to a finite number (the rate assignment throws
        before `speak`); otherwise one utterance with the resolved voice and the
        rate input's text. With a non-empty dropdown, the voice sent carries the
        dropdown's value as its name. */
    method SpeakText(text: string)
      modifies this`hostCalls
      ensures text == "" || isReading || !rateIsFinite ==> hostCalls == old(hostCalls)
      ensures text != "" && !isReading && rateIsFinite ==>
                hostCalls == old(hostCalls) + [Speak(Utterance(text, ResolveVoice(voices, selection), rateInput))]
      ensures Valid() && options != [] && hostCalls != old(hostCalls) ==>
                hostCalls[|hostCalls| - 1].utterance.voice.Some? &&
                hostCalls[|hostCalls| - 1].utterance.voice.value.name == selection
    {
      if text == "" || isReading {
        return;
      }
      var voice := ResolveVoice(voices, selection);
      if !rateIsFinite {
        return;
      }
      if Valid() && options != [] {
        var k :| 0 <= k < |options| && options[k].value == selection;
        ResolveDropdownEntry(voices, k);
        DropdownAt(voices, k);
      }
      hostCalls := hostCalls + [Speak(Utterance(text, voice, rateInput))];
    }

    /** The extraction callback of `startReading`: the trimmed text goes to `speakText`;
        when it is absent or blank nothing is sent, `isReading` stays as it is
        and the UI is forced to the inactive appearance. */
    method OnExtractionResult(result: Option<string>)
      requires pendingExtractions > 0
      modifies this`pendingExtractions, this`hostCalls, this`indicatorVisible, this`buttonText, this`classes
      ensures pendingExtractions == old(pendingExtractions) - 1
      ensures PageText(result) == "" ==>
                hostCalls == old(hostCalls) && CurrentView() == Project(old(CurrentView()), false)
      ensures PageText(result) != "" ==> CurrentView() == old(CurrentView())
      ensures PageText(result) != "" && (isReading || !rateIsFinite) ==> hostCalls == old(hostCalls)
      ensures PageText(result) != "" && !isReading && rateIsFinite ==>
                hostCalls == old(hostCalls) + [Speak(Utterance(PageText(result), ResolveVoice(voices, selection), rateInput))]
    {
      pendingExtractions := pendingExtractions - 1;
      var text := PageText(result);
      if text != "" {
        SpeakText(text);
      } else {
        UpdateUIState(false);
      }
    }

    /** The utterance's `onstart` handler. */
    method OnStart()
      modifies this`isReading, this`indicatorVisible, this`buttonText, this`classes
      ensures isReading && ShowsActive(CurrentView())
      ensures CurrentView() == Project(old(CurrentView()), true)
    {
      isReading := true;
      UpdateUIState(true);
    }

    /** The utterance's `onend` handler. */
    method OnEnd()
      modifies this`isReading, this`indicatorVisible, this`buttonText, this`classes
      ensures !isReading && ShowsInactive(CurrentView())
      ensures CurrentView() == Project(old(CurrentView()), false)
    {
      isReading := false;
      UpdateUIState(false);
    }

    /** `stopReading`, the stop button's handler: cancel on the host, whatever
        the state, then not reading with the inactive UI. */
    method StopReading()
      modifies this`hostCalls, this`isReading, this`indicatorVisible, this`buttonText, this`classes
      ensures hostCalls == old(hostCalls) + [Cancel]
      ensures !isReading && ShowsInactive(CurrentView())
      ensures CurrentView() == Project(old(CurrentView()), false)
    {
      hostCalls := hostCalls + [Cancel];
      isReading := false;
      UpdateUIState(false);
    }
  }
}
