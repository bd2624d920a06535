/** The row-based predicate editor: the row templates that fix which fields,
    value types and operators the user can pick, the push of the bound
    predicate into the editor, and the coordinator that hands the editor's
    predicate back to the content view when it is complete. */
module Editor {

  import opened Optional
  import Models
  import Foundation
  import Completeness
  import Conversion
  import Session

  /** `NSComparisonPredicate.Operator`, the cases the templates use. */
  datatype Operator =
    | EqualTo | NotEqualTo
    | LessThan | LessThanOrEqualTo | GreaterThan | GreaterThanOrEqualTo
    | Contains | BeginsWith | EndsWith

  /** The right-hand value type of a comparison row. */
  datatype AttributeType =
    | StringAttributeType | Integer64AttributeType | BooleanAttributeType | DateAttributeType

  /** `NSComparisonPredicate.Modifier`. */
  datatype Modifier = Direct | All | Any

  /** The flags of `NSComparisonPredicate.Options`; a bit mask is the set of
      its flags, and the mask 0 is the empty set. */
  datatype ComparisonOption = CaseInsensitive | DiacriticInsensitive

  /** `NSCompoundPredicate.LogicalType`. */
  datatype LogicalType = Not | And | Or

  /** `NSPredicateEditorRowTemplate`, built either for one key path or for
      compound rows. */
  datatype RowTemplate =
    | ComparisonTemplate(
        leftKeyPaths: seq<string>,
        rightExpressionAttributeType: AttributeType,
        modifier: Modifier,
        operators: seq<Operator>,
        options: set<ComparisonOption>)
    | CompoundTemplate(compoundTypes: seq<LogicalType>)

  predicate IsOrdering(op: Operator) {
    op.LessThan? || op.LessThanOrEqualTo? || op.GreaterThan? || op.GreaterThanOrEqualTo?
  }

  predicate IsStringOperator(op: Operator) {
    op.Contains? || op.BeginsWith? || op.EndsWith?
  }

  /** The template table, in the order the editor offers the rows. */
  function PredicateTemplates(): seq<RowTemplate> {
    [ ComparisonTemplate(["firstName"], StringAttributeType, Direct,
        [EqualTo, NotEqualTo, Contains, BeginsWith, EndsWith], {CaseInsensitive, DiacriticInsensitive}),
      ComparisonTemplate(["lastName"], StringAttributeType, Direct,
        [EqualTo, NotEqualTo, Contains, BeginsWith, EndsWith], {}),
      ComparisonTemplate(["department"], StringAttributeType, Direct,
        [EqualTo, NotEqualTo, Contains], {}),
      ComparisonTemplate(["country"], StringAttributeType, Direct,
        [EqualTo, NotEqualTo, Contains], {}),
      ComparisonTemplate(["age"], Integer64AttributeType, Direct,
        [EqualTo, NotEqualTo, LessThan, LessThanOrEqualTo, GreaterThan, GreaterThanOrEqualTo], {}),
      ComparisonTemplate(["isBool"], BooleanAttributeType, Direct,
        [EqualTo, NotEqualTo], {}),
      ComparisonTemplate(["dateOfBirth"], DateAttributeType, Direct,
        [EqualTo, NotEqualTo, LessThan, LessThanOrEqualTo, GreaterThan, GreaterThanOrEqualTo], {}),
      CompoundTemplate([And, Or, Not]) ]
  }

  /** `createPredicateTemplates`: one append per template. */
  method CreatePredicateTemplates() returns (templates: seq<RowTemplate>)
    ensures templates == PredicateTemplates()
  {
    templates := [];
    templates := templates + [ComparisonTemplate(["firstName"], StringAttributeType, Direct,
      [EqualTo, NotEqualTo, Contains, BeginsWith, EndsWith], {CaseInsensitive, DiacriticInsensitive})];
    templates := templates + [ComparisonTemplate(["lastName"], StringAttributeType, Direct,
      [EqualTo, NotEqualTo, Contains, BeginsWith, EndsWith], {})];
    templates := templates + [ComparisonTemplate(["department"], StringAttributeType, Direct,
      [EqualTo, NotEqualTo, Contains], {})];
    templates := templates + [ComparisonTemplate(["country"], StringAttributeType, Direct,
      [EqualTo, NotEqualTo, Contains], {})];
    templates := templates + [ComparisonTemplate(["age"], Integer64AttributeType, Direct,
      [EqualTo, NotEqualTo, LessThan, LessThanOrEqualTo, GreaterThan, GreaterThanOrEqualTo], {})];
    templates := templates + [ComparisonTemplate(["isBool"], BooleanAttributeType, Direct,
      [EqualTo, NotEqualTo], {})];
    templates := templates + [ComparisonTemplate(["dateOfBirth"], DateAttributeType, Direct,
      [EqualTo, NotEqualTo, LessThan, LessThanOrEqualTo, GreaterThan, GreaterThanOrEqualTo], {})];
    templates := templates + [CompoundTemplate([And, Or, Not])];
  }

  /** Eight templates: the seven fields, each for a single key path with the
      direct modifier, in this order, then one compound template. */
  lemma TemplateOrder()
    ensures var t := PredicateTemplates();
      && |t| == 8
      && (forall i :: 0 <= i < 7 ==> t[i].ComparisonTemplate? && |t[i].leftKeyPaths| == 1 && t[i].modifier == Direct)
      && seq(7, i requires 0 <= i < 7 => t[i].leftKeyPaths[0])
           == ["firstName", "lastName", "department", "country", "age", "isBool", "dateOfBirth"]
      && t[7] == CompoundTemplate([And, Or, Not])
  {
  }

  /** The operator lists of the seven fields, and their value types. */
  lemma FieldOperators()
    ensures var t := PredicateTemplates();
      && t[0].rightExpressionAttributeType == StringAttributeType
      && t[1].rightExpressionAttributeType == StringAttributeType
      && t[0].operators == t[1].operators == [EqualTo, NotEqualTo, Contains, BeginsWith, EndsWith]
      && t[2].rightExpressionAttributeType == StringAttributeType
      && t[3].rightExpressionAttributeType == StringAttributeType
      && t[2].operators == t[3].operators == [EqualTo, NotEqualTo, Contains]
      && t[4].rightExpressionAttributeType == Integer64AttributeType
      && t[6].rightExpressionAttributeType == DateAttributeType
      && t[4].operators == t[6].operators
           == [EqualTo, NotEqualTo, LessThan, LessThanOrEqualTo, GreaterThan, GreaterThanOrEqualTo]
      && t[5].rightExpressionAttributeType == BooleanAttributeType
      && t[5].operators == [EqualTo, NotEqualTo]
  {
  }

  /** A comparison template offers equality and inequality first, substring
      operators only on strings, and ordering operators only on integers and
      dates. */
  predicate OperatorsFitType(t: RowTemplate) {
    t.ComparisonTemplate? ==>
      var ops, ty := t.operators, t.rightExpressionAttributeType;
      && 2 <= |ops| && ops[0] == EqualTo && ops[1] == NotEqualTo
      && (forall j :: 0 <= j < |ops| && IsStringOperator(ops[j]) ==> ty == StringAttributeType)
      && (forall j :: 0 <= j < |ops| && IsOrdering(ops[j]) ==> ty == Integer64AttributeType || ty == DateAttributeType)
  }

  /** Every template's operators fit its value type. */
  lemma OperatorsMatchTypes()
    ensures forall i :: 0 <= i < |PredicateTemplates()| ==> OperatorsFitType(PredicateTemplates()[i])
  {
    forall i | 0 <= i < |PredicateTemplates()|
      ensures OperatorsFitType(PredicateTemplates()[i])
    {
      OperatorsFitAt(i);
    }
  }

  lemma OperatorsFitAt(i: nat)
    requires i < |PredicateTemplates()|
    ensures OperatorsFitType(PredicateTemplates()[i])
  {
    var t := PredicateTemplates()[i];
    if i < 2 {
      assert t.operators == [EqualTo, NotEqualTo, Contains, BeginsWith, EndsWith];
    } else if i < 4 {
      assert t.operators == [EqualTo, NotEqualTo, Contains];
    } else if i == 4 || i == 6 {
      assert t.operators == [EqualTo, NotEqualTo, LessThan, LessThanOrEqualTo, GreaterThan, GreaterThanOrEqualTo];
    } else if i == 5 {
      assert t.operators == [EqualTo, NotEqualTo];
    }
  }

  /** Only the firstName template compares case- and diacritic-insensitively. */
  lemma OnlyFirstNameHasOptions()
    ensures forall t :: t in PredicateTemplates() && t.ComparisonTemplate? ==>
      t.options == if t.leftKeyPaths == ["firstName"] then {CaseInsensitive, DiacriticInsensitive} else {}
  {
  }

  /** Whether a dictionary value has a template's value type. */
  predicate HasType(v: Models.Value, ty: AttributeType) {
    match v
    case StringValue(_) => ty == StringAttributeType
    case IntValue(_) => ty == Integer64AttributeType
    case BoolValue(_) => ty == BooleanAttributeType
    case DateValue(_) => ty == DateAttributeType
  }

  /** The key paths of the comparison templates, in order. */
  function OfferedFields(templates: seq<RowTemplate>): seq<string> {
    if templates == [] then []
    else (match templates[0]
          case ComparisonTemplate(keyPaths, _, _, _, _) => keyPaths
          case CompoundTemplate(_) => []) + OfferedFields(templates[1..])
  }

  /** Every field the editor offers is a key of the dictionary the filter
      builds, holding a value of the template's type. */
  lemma TemplatesMatchRecords(p: Models.EntityPerson)
    ensures var t, d := PredicateTemplates(), Models.ToDictionary(p);
      forall i :: 0 <= i < |t| && t[i].ComparisonTemplate? ==>
        && |t[i].leftKeyPaths| == 1 && t[i].leftKeyPaths[0] in d
        && HasType(d[t[i].leftKeyPaths[0]], t[i].rightExpressionAttributeType)
  {
  }

  /** The fields offered, in the order of the templates. */
  lemma OfferedFieldsInOrder()
    ensures OfferedFields(PredicateTemplates())
         == ["firstName", "lastName", "department", "country", "age", "isBool", "dateOfBirth"]
  {
    var t := PredicateTemplates();
    assert OfferedFields(t[7..]) == [];
  }

  /** The fields offered are the dictionary's keys and the properties the
      conversion qualifies. */
  lemma OfferedFieldsAreProperties(p: Models.EntityPerson)
    ensures (set k | k in OfferedFields(PredicateTemplates())) == Models.ToDictionary(p).Keys
    ensures forall k :: k in OfferedFields(PredicateTemplates()) <==> k in Conversion.Properties
  {
    OfferedFieldsInOrder();
  }

  /** The editor control; only the value it shows matters here. */
  class PredicateEditor<P> {
    var objectValue: Option<P>
  }

  /** Whether `updateNSView` writes the bound predicate into an editor that
      shows `shown`. */
  predicate PushWrites<P(==)>(shown: Option<P>, bound: Option<P>) {
    bound.Some? && shown != bound
  }

  /** `updateNSView`: push the bound predicate into the editor when there is
      one and the editor shows something else. */
  method UpdateNSView<P(==)>(editor: PredicateEditor<P>, bound: Option<P>) returns (wrote: bool)
    modifies editor
    ensures wrote == PushWrites(old(editor.objectValue), bound)
    ensures editor.objectValue == if wrote then bound else old(editor.objectValue)
  {
    wrote := false;
    if bound.Some? && editor.objectValue != bound {
      editor.objectValue := bound;
      wrote := true;
    }
  }

  /** After a push the editor shows the bound predicate whenever there is
      one, a nil binding never clears the editor, and pushing the same
      binding again writes nothing. */
  lemma PushSettles<P>(shown: Option<P>, bound: Option<P>)
    ensures var after := if PushWrites(shown, bound) then bound else shown;
      && (bound.Some? ==> after == bound)
      && (bound.None? ==> after == shown)
      && !PushWrites(after, bound)
  {
  }

  /** What `predicateChanged` does with the editor's value: the new value of
      the binding and whether the change callback runs. */
  datatype Change<P> = Change(binding: Option<P>, notifies: bool)

  function PredicateChangedOutcome<P>(objectValue: Option<P>, predicateFormat: P -> string): Change<P> {
    match objectValue
    case None => Change(None, false)
    case Some(pred) =>
      if Completeness.IsIncomplete(predicateFormat(pred)) then Change(None, false)
      else Change(Some(pred), true)
  }

  /** The callback runs exactly when the editor holds a complete predicate,
      and then the binding holds that predicate; otherwise it becomes nil. */
  lemma PredicateChangedGate<P>(objectValue: Option<P>, predicateFormat: P -> string)
    ensures var c := PredicateChangedOutcome(objectValue, predicateFormat);
      && (c.notifies <==> objectValue.Some? && !Completeness.IsIncomplete(predicateFormat(objectValue.value)))
      && c.binding == if c.notifies then objectValue else None
  {
  }

  /** The coordinator of the editor. Its parent's `predicate` binding is the
      content view's `currentPredicate` and its `onPredicateChange` callback
      is the content view's `applyPredicate`. */
  class Coordinator<P(==)> {
    const view: Session.ContentView<P>
    /** How often the change callback has run. */
    ghost var notifications: nat

    constructor (view: Session.ContentView<P>)
      ensures this.view == view && notifications == 0
    {
      this.view := view;
      notifications := 0;
    }

    method PredicateChanged(sender: PredicateEditor<P>)
      requires view.Valid()
      modifies this, view
      ensures view.Valid() && view.allPersons == old(view.allPersons)
      ensures var c := PredicateChangedOutcome(sender.objectValue, view.foundation.predicateFormat);
        && notifications == old(notifications) + (if c.notifies then 1 else 0)
        && view.State() == if c.notifies
             then Session.Applied(old(view.State()).(currentPredicate := c.binding), view.allPersons, view.foundation)
             else old(view.State()).(currentPredicate := None)
      // an incomplete edit nils the binding but leaves a stale filter in place
      ensures !PredicateChangedOutcome(sender.objectValue, view.foundation.predicateFormat).notifies ==>
        && view.currentPredicate == None
        && view.isFiltered == old(view.isFiltered)
        && view.displayedPersons == old(view.displayedPersons)
        && view.parsedSwiftDataPredicate == old(view.parsedSwiftDataPredicate)
    {
      match sender.objectValue {
        case None =>
          view.currentPredicate := None;
        case Some(pred) =>
          var predicateString := view.foundation.predicateFormat(pred);
          if Completeness.IsIncomplete(predicateString) {
            view.currentPredicate := None;
            return;
          }
          view.currentPredicate := Some(pred);
          view.ApplyPredicate();
          notifications := notifications + 1;
      }
    }
  }

  /** A complete predicate from the editor leaves the view filtered by it. */
  lemma CompleteEditFilters<P>(s: Session.ViewState<P>, allPersons: seq<Models.EntityPerson>,
                               rt: Foundation.PredicateRuntime<P>, objectValue: Option<P>)
    requires PredicateChangedOutcome(objectValue, rt.predicateFormat).notifies
    ensures var t := Session.Applied(s.(currentPredicate := objectValue), allPersons, rt);
      && t.isFiltered && t.currentPredicate == objectValue
      && t.displayedPersons == Session.Matching(rt, objectValue.value, allPersons)
      && t.parsedSwiftDataPredicate == Conversion.SwiftDataPredicate(rt.predicateFormat(objectValue.value))
  {
  }

  /** The binding `predicateChanged` leaves is never pushed back: it is
      either nil or the editor's own value, so the next `updateNSView`
      writes nothing. */
  lemma ChangeIsNotPushedBack<P>(objectValue: Option<P>, predicateFormat: P -> string)
    ensures !PushWrites(objectValue, PredicateChangedOutcome(objectValue, predicateFormat).binding)
  {
  }
}
