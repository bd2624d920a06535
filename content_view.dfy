/** The content view: the filter session that owns the current predicate, the
    persons on display, the SwiftData display string and the filtered flag,
    and moves between the unfiltered and the filtered state. */
module Session {

  import opened Optional
  import opened Models
  import Filtering
  import Foundation
  import Completeness
  import Conversion

  /** The four `@State` values the view changes. */
  datatype ViewState<P> = ViewState(
    currentPredicate: Option<P>,
    displayedPersons: seq<EntityPerson>,
    parsedSwiftDataPredicate: string,
    isFiltered: bool)

  /** The filter closure: the predicate evaluated on the person's dictionary. */
  function Accepts<P>(rt: Foundation.PredicateRuntime<P>, pred: P): EntityPerson -> bool {
    (person: EntityPerson) => rt.evaluate(pred, ToDictionary(person))
  }

  /** The persons the predicate accepts, in the order of `allPersons`. */
  function Matching<P>(rt: Foundation.PredicateRuntime<P>, pred: P, allPersons: seq<EntityPerson>): seq<EntityPerson> {
    Filtering.Filter(allPersons, Accepts(rt, pred))
  }

  /** State after `clearPredicate`, whatever the state before. */
  function Cleared<P>(allPersons: seq<EntityPerson>): ViewState<P> {
    ViewState(None, allPersons, "", false)
  }

  /** State after `applyPredicate`. */
  function Applied<P>(s: ViewState<P>, allPersons: seq<EntityPerson>, rt: Foundation.PredicateRuntime<P>): ViewState<P> {
    match s.currentPredicate
    case None => Cleared(allPersons)
    case Some(pred) =>
      var predicateString := rt.predicateFormat(pred);
      if Completeness.IsIncomplete(predicateString) then s
      else s.(displayedPersons := Matching(rt, pred, allPersons),
              parsedSwiftDataPredicate := Conversion.SwiftDataPredicate(predicateString),
              isFiltered := true)
  }

  /** State after the handler for a change of the person count. */
  function CountChanged<P>(s: ViewState<P>, allPersons: seq<EntityPerson>): ViewState<P> {
    if !s.isFiltered then s.(displayedPersons := allPersons) else s
  }

  /** State after the `onAppear` handler. */
  function Appeared<P>(s: ViewState<P>, allPersons: seq<EntityPerson>): ViewState<P> {
    s.(displayedPersons := allPersons)
  }

  /** The display string is present exactly when the view is filtered, and
      then it is a `#Predicate` literal. */
  ghost predicate Consistent<P>(s: ViewState<P>) {
    && (s.isFiltered <==> s.parsedSwiftDataPredicate != "")
    && (s.isFiltered ==>
          && |Conversion.Prefix| + |Conversion.Suffix| <= |s.parsedSwiftDataPredicate|
          && s.parsedSwiftDataPredicate[..|Conversion.Prefix|] == Conversion.Prefix
          && s.parsedSwiftDataPredicate[|s.parsedSwiftDataPredicate| - |Conversion.Suffix|..] == Conversion.Suffix)
  }

  class ContentView<P(==)> {
    /** Foundation's predicate services. */
    const foundation: Foundation.PredicateRuntime<P>
    /** The `@Query` result; the store replaces it, the view never writes it. */
    var allPersons: seq<EntityPerson>
    var currentPredicate: Option<P>
    var displayedPersons: seq<EntityPerson>
    var parsedSwiftDataPredicate: string
    var isFiltered: bool

    function State(): ViewState<P>
      reads this
    {
      ViewState(currentPredicate, displayedPersons, parsedSwiftDataPredicate, isFiltered)
    }

    ghost predicate Valid()
      reads this
    {
      Consistent(State())
    }

    /** The initial `@State` values. */
    constructor (foundation: Foundation.PredicateRuntime<P>, allPersons: seq<EntityPerson>)
      ensures Valid()
      ensures this.foundation == foundation && this.allPersons == allPersons
      ensures State() == ViewState(None, [], "", false)
    {
      this.foundation := foundation;
      this.allPersons := allPersons;
      currentPredicate := None;
      displayedPersons := [];
      parsedSwiftDataPredicate := "";
      isFiltered := false;
    }

    method OnAppear()
      requires Valid()
      modifies this
      ensures Valid() && allPersons == old(allPersons)
      ensures State() == Appeared(old(State()), allPersons)
    {
      displayedPersons := allPersons;
    }

    /** The `onChange(of: allPersons.count)` handler. */
    method OnCountChange()
      requires Valid()
      modifies this
      ensures Valid() && allPersons == old(allPersons)
      ensures State() == CountChanged(old(State()), allPersons)
    {
      if !isFiltered {
        displayedPersons := allPersons;
      }
    }

    /** The store delivers a new `@Query` result; the count handler runs only
        when the number of persons changed. */
    method QueryUpdated(persons: seq<EntityPerson>)
      requires Valid()
      modifies this
      ensures Valid() && allPersons == persons
      ensures State() == if |persons| != |old(allPersons)| then CountChanged(old(State()), persons) else old(State())
    {
      var oldCount := |allPersons|;
      allPersons := persons;
      if |persons| != oldCount {
        OnCountChange();
      }
    }

    method ClearPredicate()
      requires Valid()
      modifies this
      ensures Valid() && allPersons == old(allPersons)
      ensures State() == Cleared(allPersons)
    {
      currentPredicate := None;
      displayedPersons := allPersons;
      parsedSwiftDataPredicate := "";
      isFiltered := false;
    }

    method ApplyPredicate()
      requires Valid()
      modifies this
      ensures Valid() && allPersons == old(allPersons)
      ensures State() == Applied(old(State()), allPersons, foundation)
    {
      match currentPredicate {
        case None =>
          ClearPredicate();
        case Some(pred) =>
          var predicateString := foundation.predicateFormat(pred);
          if Completeness.IsIncomplete(predicateString) {
            return;
          }
          displayedPersons := Matching(foundation, pred, allPersons);
          parsedSwiftDataPredicate := Conversion.ConvertToSwiftDataPredicate(predicateString);
          isFiltered := true;
      }
    }
  }

  /** With no current predicate, applying is clearing. */
  lemma ApplyWithoutPredicateClears<P>(s: ViewState<P>, allPersons: seq<EntityPerson>, rt: Foundation.PredicateRuntime<P>)
    requires s.currentPredicate == None
    ensures Applied(s, allPersons, rt) == Cleared(allPersons)
  {
  }

  /** An incomplete predicate leaves the persons on display, the display
      string and the filtered flag as they were. */
  lemma ApplyIncompleteChangesNothing<P>(s: ViewState<P>, allPersons: seq<EntityPerson>, rt: Foundation.PredicateRuntime<P>)
    requires s.currentPredicate.Some? && Completeness.IsIncomplete(rt.predicateFormat(s.currentPredicate.value))
    ensures Applied(s, allPersons, rt) == s
  {
  }

  /** A complete predicate shows exactly the persons it accepts, in their
      original order, with the converted display string. */
  lemma ApplyCompleteFilters<P>(s: ViewState<P>, allPersons: seq<EntityPerson>, rt: Foundation.PredicateRuntime<P>)
    requires s.currentPredicate.Some? && !Completeness.IsIncomplete(rt.predicateFormat(s.currentPredicate.value))
    ensures var t := Applied(s, allPersons, rt);
      var keep := Accepts(rt, s.currentPredicate.value);
      && t.currentPredicate == s.currentPredicate
      && t.isFiltered
      && t.parsedSwiftDataPredicate == Conversion.SwiftDataPredicate(rt.predicateFormat(s.currentPredicate.value))
      && |t.displayedPersons| <= |allPersons|
      && Filtering.PickedAt(t.displayedPersons, allPersons, Filtering.KeptIndices(allPersons, keep))
      && (forall i :: 0 <= i < |allPersons| ==>
            (i in Filtering.KeptIndices(allPersons, keep) <==> rt.evaluate(s.currentPredicate.value, ToDictionary(allPersons[i]))))
  {
    Filtering.FilterPicksKeptPositions(allPersons, Accepts(rt, s.currentPredicate.value));
  }

  /** Clearing twice is clearing once, and the cleared state shows everyone. */
  lemma ClearIsIdempotent<P>(allPersons: seq<EntityPerson>, rt: Foundation.PredicateRuntime<P>)
    ensures Applied(Cleared(allPersons), allPersons, rt) == Cleared(allPersons)
    ensures var c: ViewState<P> := Cleared(allPersons);
      c.currentPredicate == None && c.displayedPersons == allPersons && c.parsedSwiftDataPredicate == "" && !c.isFiltered
  {
  }

  /** A complete predicate that accepts every stored person displays them
      all, in their order. */
  lemma ApplyAcceptingAllShowsEveryone<P>(s: ViewState<P>, allPersons: seq<EntityPerson>,
                                          rt: Foundation.PredicateRuntime<P>)
    requires s.currentPredicate.Some? && !Completeness.IsIncomplete(rt.predicateFormat(s.currentPredicate.value))
    requires forall p :: p in allPersons ==> rt.evaluate(s.currentPredicate.value, ToDictionary(p))
    ensures Applied(s, allPersons, rt).displayedPersons == allPersons
    ensures Applied(s, allPersons, rt).isFiltered
  {
    Filtering.FilterKeepsAll(allPersons, Accepts(rt, s.currentPredicate.value));
  }

  /** The count handler shows everyone when unfiltered; when filtered it keeps
      the earlier result, even if the persons it was computed from are gone. */
  lemma CountChangeKeepsFilteredResult<P>(s: ViewState<P>, allPersons: seq<EntityPerson>)
    ensures CountChanged(s, allPersons).displayedPersons == if s.isFiltered then s.displayedPersons else allPersons
    ensures CountChanged(s, allPersons).(displayedPersons := s.displayedPersons) == s
  {
  }

  /** Every transition keeps the display string consistent with the flag. */
  lemma TransitionsKeepConsistency<P>(s: ViewState<P>, allPersons: seq<EntityPerson>, rt: Foundation.PredicateRuntime<P>)
    requires Consistent(s)
    ensures Consistent(Applied(s, allPersons, rt))
    ensures Consistent(Cleared<P>(allPersons))
    ensures Consistent(CountChanged(s, allPersons))
    ensures Consistent(Appeared(s, allPersons))
  {
  }
}
