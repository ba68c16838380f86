/**
 * The voice catalogue of the popup: which of the host's voices are offered
 * in the voice dropdown, how each is shown, and which voice an utterance
 * gets for the name the dropdown holds.
 */
module VoiceCatalog {
  import opened Wrappers
  import opened JsString

  /** A voice as the host's speech engine reports it. */
  datatype Voice = Voice(name: string, lang: string)

  /** One entry of the voice dropdown: the value it stores and the text it shows (its `textContent`). */
  datatype VoiceOption = VoiceOption(value: string, text: string)

  /** The language tags the dropdown prefers: Indian languages and US English. */
  const PreferredTags: seq<string> := ["en-IN", "hi-IN", "ta-IN", "bn-IN", "mr-IN", "en-US"]

  /** The filter callback of the catalogue: the language tag contains one of
      the preferred tags as a substring (so "en-IN-x-variant" also passes). */
  predicate IsPreferred(v: Voice)
  {
    Includes(v.lang, "en-IN") ||
    Includes(v.lang, "hi-IN") ||
    Includes(v.lang, "ta-IN") ||
    Includes(v.lang, "bn-IN") ||
    Includes(v.lang, "mr-IN") ||
    Includes(v.lang, "en-US")
  }

  /** The six disjuncts of the filter are the six entries of `PreferredTags`. */
  lemma {:induction false} PreferredTagsDisjuncts(v: Voice)
    ensures IsPreferred(v) <==> exists k :: 0 <= k < |PreferredTags| && Includes(v.lang, PreferredTags[k])
  {
    assert PreferredTags[0] == "en-IN" && PreferredTags[1] == "hi-IN" && PreferredTags[2] == "ta-IN";
    assert PreferredTags[3] == "bn-IN" && PreferredTags[4] == "mr-IN" && PreferredTags[5] == "en-US";
    if IsPreferred(v) {
      var k := if Includes(v.lang, "en-IN") then 0 else if Includes(v.lang, "hi-IN") then 1
               else if Includes(v.lang, "ta-IN") then 2 else if Includes(v.lang, "bn-IN") then 3
               else if Includes(v.lang, "mr-IN") then 4 else 5;
      assert Includes(v.lang, PreferredTags[k]);
    }
  }

  /** A voice passes exactly when one of the six tags occurs somewhere in its language tag. */
  lemma PreferredIff(v: Voice)
    ensures IsPreferred(v) <==>
            exists k: nat, i: nat :: k < |PreferredTags| && OccursAt(v.lang, PreferredTags[k], i)
  {
    PreferredTagsDisjuncts(v);
    forall k | 0 <= k < |PreferredTags| {
      IncludesIff(v.lang, PreferredTags[k]);
    }
  }

  /** `voices.filter(isPreferred)`, keeping the host's order. */
  function Filter(vs: seq<Voice>): seq<Voice>
  {
    if vs == [] then []
    else (if IsPreferred(vs[0]) then [vs[0]] else []) + Filter(vs[1..])
  }

  /** The filtered list is no longer than the host's, and each of its voices is
      one of the host's and passes the filter. */
  lemma {:induction false} FilterSound(vs: seq<Voice>)
    ensures |Filter(vs)| <= |vs|
    ensures forall k :: 0 <= k < |Filter(vs)| ==> Filter(vs)[k] in vs && IsPreferred(Filter(vs)[k])
  {
    if vs != [] {
      FilterSound(vs[1..]);
      var head := if IsPreferred(vs[0]) then [vs[0]] else [];
      forall k | 0 <= k < |Filter(vs)|
        ensures Filter(vs)[k] in vs && IsPreferred(Filter(vs)[k])
      {
        if k >= |head| {
          assert Filter(vs)[k] == Filter(vs[1..])[k - |head|];
        }
      }
    }
  }

  /** Filtering distributes over concatenation: the host's relative order is kept. */
  lemma {:induction false} FilterAppend(a: seq<Voice>, b: seq<Voice>)
    ensures Filter(a + b) == Filter(a) + Filter(b)
  {
    if a != [] {
      assert (a + b)[0] == a[0];
      assert (a + b)[1..] == a[1..] + b;
      FilterAppend(a[1..], b);
      var head := if IsPreferred(a[0]) then [a[0]] else [];
      assert Filter(a + b) == head + Filter(a[1..] + b);
      assert Filter(a) == head + Filter(a[1..]);
    } else {
      assert a + b == b;
    }
  }

  /** Each preferred voice is kept once per time the host lists it; every other voice is dropped. */
  lemma {:induction false} FilterCount(vs: seq<Voice>, v: Voice)
    ensures multiset(Filter(vs))[v] == if IsPreferred(v) then multiset(vs)[v] else 0
  {
    if vs != [] {
      FilterCount(vs[1..], v);
      assert vs == [vs[0]] + vs[1..];
    }
  }

  /** A voice of the host's list is missing from the filtered list exactly when
      its language tag contains none of the six tags. */
  lemma FilterMembership(vs: seq<Voice>, v: Voice)
    requires v in vs
    ensures v !in Filter(vs) <==> forall k :: 0 <= k < |PreferredTags| ==> !Includes(v.lang, PreferredTags[k])
  {
    FilterCount(vs, v);
    PreferredTagsDisjuncts(v);
    assert multiset(vs)[v] > 0;
  }

  /** The dropdown entry for one voice: the value is the voice name, the label
      reads "name (lang)". */
  function OptionFor(v: Voice): VoiceOption
  {
    VoiceOption(v.name, v.name + " (" + v.lang + ")")
  }

  /** The `forEach` that appends one dropdown entry per kept voice. */
  function Render(kept: seq<Voice>): (r: seq<VoiceOption>)
    ensures |r| == |kept|
    ensures forall k :: 0 <= k < |kept| ==> r[k] == OptionFor(kept[k])
  {
    if kept == [] then [] else [OptionFor(kept[0])] + Render(kept[1..])
  }

  /** Appending one kept voice appends its entry. */
  lemma RenderSnoc(kept: seq<Voice>, v: Voice)
    ensures Render(kept + [v]) == Render(kept) + [OptionFor(v)]
  {
    assert forall k :: 0 <= k < |kept| ==> (kept + [v])[k] == kept[k];
  }

  /** The whole dropdown for a host voice list. */
  function Dropdown(vs: seq<Voice>): seq<VoiceOption>
  {
    Render(Filter(vs))
  }

  /** Entry k of the dropdown is made from the k-th preferred voice: its value is
      that voice's name and its label shows name and language tag. */
  lemma DropdownAt(vs: seq<Voice>, k: nat)
    requires k < |Dropdown(vs)|
    ensures |Dropdown(vs)| == |Filter(vs)|
    ensures Dropdown(vs)[k].value == Filter(vs)[k].name
    ensures Dropdown(vs)[k].text == Filter(vs)[k].name + " (" + Filter(vs)[k].lang + ")"
  {
  }

  /** `voices.find(v => v.name === name)`, as the index of the first voice with that name. */
  function FindByName(vs: seq<Voice>, name: string): (r: Option<nat>)
    ensures r.Some? ==> r.value < |vs| && vs[r.value].name == name &&
                        forall j :: 0 <= j < r.value ==> vs[j].name != name
    ensures r.None? ==> forall j :: 0 <= j < |vs| ==> vs[j].name != name
  {
    if vs == [] then None
    else if vs[0].name == name then Some(0)
    else match FindByName(vs[1..], name)
      case Some(i) => Some(i + 1)
      case None => None
  }

  /** `voices.find(v => v.name === selection) || voices[0]`: the first cached voice
      whose name is the selection, else the first cached voice, else no voice
      (the host's default). Both the lookup and the fallback range over the whole
      cached list, not only the voices the dropdown offers. */
  function ResolveVoice(vs: seq<Voice>, selection: string): (r: Option<Voice>)
    ensures r.Some? <==> |vs| > 0
    ensures r.Some? ==> r.value in vs
    ensures forall j :: (0 <= j < |vs| && vs[j].name == selection &&
                         forall i :: 0 <= i < j ==> vs[i].name != selection) ==> r == Some(vs[j])
    ensures |vs| > 0 && (forall j :: 0 <= j < |vs| ==> vs[j].name != selection) ==> r == Some(vs[0])
  {
    match FindByName(vs, selection)
    case Some(i) => Some(vs[i])
    case None => if |vs| > 0 then Some(vs[0]) else None
  }

  /** Choosing any dropdown entry resolves to a cached voice carrying that entry's
      name. It need not be the voice the entry was made from: an earlier cached
      voice with the same name, even one the filter dropped, wins. */
  lemma ResolveDropdownEntry(vs: seq<Voice>, k: nat)
    requires k < |Dropdown(vs)|
    ensures ResolveVoice(vs, Dropdown(vs)[k].value).Some?
    ensures ResolveVoice(vs, Dropdown(vs)[k].value).value.name == Filter(vs)[k].name
  {
    DropdownAt(vs, k);
    FilterSound(vs);
    var v := Filter(vs)[k];
    var j :| 0 <= j < |vs| && vs[j] == v;
    assert vs[j].name == Dropdown(vs)[k].value;
  }
}
