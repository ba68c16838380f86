/**
 * What the popup shows about the reading state: the visibility of the reading
 * indicator, the start button's text and the start button's class list.
 */
module ReadingUi {

  const PrimaryClass: string := "btn-primary"
  const SuccessClass: string := "btn-success"
  const ActiveText: string := "Reading..."
  const InactiveText: string := "Start Reading"

  /** The visible fields the reading state is projected onto. */
  datatype View = View(indicatorVisible: bool, buttonText: string, classes: set<string>)

  /** The appearance while a reading session is active. */
  predicate ShowsActive(v: View)
  {
    v.indicatorVisible && v.buttonText == ActiveText &&
    SuccessClass in v.classes && PrimaryClass !in v.classes
  }

  /** The appearance while no reading session is active. */
  predicate ShowsInactive(v: View)
  {
    !v.indicatorVisible && v.buttonText == InactiveText &&
    PrimaryClass in v.classes && SuccessClass !in v.classes
  }

  /** The effect of `updateUIState(reading)` on a view: the active or inactive
      appearance, with every class other than the two button classes kept. */
  function Project(v: View, reading: bool): (r: View)
    ensures reading ==> ShowsActive(r)
    ensures !reading ==> ShowsInactive(r)
    ensures forall c :: c != PrimaryClass && c != SuccessClass ==> (c in r.classes <==> c in v.classes)
  {
    if reading then
      View(true, ActiveText, v.classes - {PrimaryClass} + {SuccessClass})
    else
      View(false, InactiveText, v.classes + {PrimaryClass} - {SuccessClass})
  }

  /** Only the last projection matters: projecting twice equals projecting with
      the second state alone, so projecting twice with the same state is projecting once. */
  lemma ProjectLastWins(v: View, first: bool, second: bool)
    ensures Project(Project(v, first), second) == Project(v, second)
  {
    var w := Project(v, first);
    assert Project(w, second).classes == Project(v, second).classes;
  }

  lemma ProjectIdempotent(v: View, reading: bool)
    ensures Project(Project(v, reading), reading) == Project(v, reading)
  {
    ProjectLastWins(v, reading, reading);
  }

  /** A view that already shows the appearance for `reading` is left as it is. */
  lemma ProjectFixesShown(v: View, reading: bool)
    requires if reading then ShowsActive(v) else ShowsInactive(v)
    ensures Project(v, reading) == v
  {
    assert Project(v, reading).classes == v.classes;
  }
}
