/** The CloudEvents 1.0 event value (`CloudEventV1`): three required and four optional context
    attributes, the data bytes and the extension map. The object is immutable, so it is a
    datatype; visiting pushes its attributes into a writer, which is the one place where state
    changes (the writer's). */
module V1 {
  import opened Wrappers
  import opened Values

  /** The spec versions the library knows. */
  datatype SpecVersion = V03 | V1

  /** The context attributes of version 1.0, in the order of the Java enum `ContextAttributes`. */
  datatype ContextAttribute = ID | SOURCE | TYPE | DATACONTENTTYPE | DATASCHEMA | SUBJECT | TIME

  /** Every context attribute, in enum order. */
  const AllAttributes: seq<ContextAttribute> := [ID, SOURCE, TYPE, DATACONTENTTYPE, DATASCHEMA, SUBJECT, TIME]

  /** The attribute's wire name: the enum constant's name in lower case. */
  function Name(a: ContextAttribute): string {
    match a
    case ID => "id"
    case SOURCE => "source"
    case TYPE => "type"
    case DATACONTENTTYPE => "datacontenttype"
    case DATASCHEMA => "dataschema"
    case SUBJECT => "subject"
    case TIME => "time"
  }

  /** One event. The optional attributes and the data are `None` where Java holds `null`. */
  datatype CloudEventV1 = CloudEventV1(
    id: string,
    source: Uri,
    eventType: string,  // the Java field `type`
    datacontenttype: Option<string>,
    dataschema: Option<Uri>,
    subject: Option<string>,
    time: Option<Timestamp>,
    data: Option<seq<Byte>>,
    extensions: map<string, ExtensionValue>)

  /** `getSpecVersion`: an event of this class is always a version 1.0 event. */
  function GetSpecVersion(e: CloudEventV1): (v: SpecVersion)
    ensures v == V1
  {
    V1
  }

  function StringAttribute(s: Option<string>): Option<AttributeValue> {
    if s.Some? then Some(StringValue(s.value)) else None
  }

  function UriAttribute(u: Option<Uri>): Option<AttributeValue> {
    if u.Some? then Some(UriValue(u.value)) else None
  }

  function TimeAttribute(t: Option<Timestamp>): Option<AttributeValue> {
    if t.Some? then Some(TimeValue(t.value)) else None
  }

  /** The field that stores attribute `a` (`None` for a `null` field). */
  function Field(e: CloudEventV1, a: ContextAttribute): Option<AttributeValue> {
    match a
    case ID => Some(StringValue(e.id))
    case SOURCE => Some(UriValue(e.source))
    case TYPE => Some(StringValue(e.eventType))
    case DATACONTENTTYPE => StringAttribute(e.datacontenttype)
    case DATASCHEMA => UriAttribute(e.dataschema)
    case SUBJECT => StringAttribute(e.subject)
    case TIME => TimeAttribute(e.time)
  }

  /** The `IllegalArgumentException` thrown for a name that is not a 1.0 attribute. */
  datatype AttributeError = NoSuchAttribute(name: string)

  /** `getAttribute`: the switch over the seven attribute names. A known name yields the
      stored field, possibly `null`; any other name throws. */
  function GetAttribute(e: CloudEventV1, name: string): (r: Result<Option<AttributeValue>, AttributeError>)
    ensures r.Failure? <==> (forall a :: Name(a) != name)
    ensures r.Failure? ==> r.error == NoSuchAttribute(name)
    ensures forall a :: Name(a) == name ==> r == Success(Field(e, a))
  {
    match name
    case "id" => assert Name(ID) == name; Success(Some(StringValue(e.id)))
    case "source" => assert Name(SOURCE) == name; Success(Some(UriValue(e.source)))
    case "type" => assert Name(TYPE) == name; Success(Some(StringValue(e.eventType)))
    case "datacontenttype" => assert Name(DATACONTENTTYPE) == name; Success(StringAttribute(e.datacontenttype))
    case "dataschema" => assert Name(DATASCHEMA) == name; Success(UriAttribute(e.dataschema))
    case "subject" => assert Name(SUBJECT) == name; Success(StringAttribute(e.subject))
    case "time" => assert Name(TIME) == name; Success(TimeAttribute(e.time))
    case _ => Failure(NoSuchAttribute(name))
  }

  /** One `visitor.setAttribute(name, value)` call. */
  datatype Visit = Visit(name: string, value: AttributeValue)

  /** The call for an optional attribute: none when the field is `null`. */
  function VisitIfPresent(a: ContextAttribute, v: Option<AttributeValue>): seq<Visit> {
    if v.Some? then [Visit(Name(a), v.value)] else []
  }

  /** The calls `visitAttributes` makes, in order: the three required attributes
      unconditionally, then each optional attribute that is not `null`. */
  function Visits(e: CloudEventV1): seq<Visit> {
    [Visit(Name(ID), StringValue(e.id)),
     Visit(Name(SOURCE), UriValue(e.source)),
     Visit(Name(TYPE), StringValue(e.eventType))]
    + VisitIfPresent(DATACONTENTTYPE, StringAttribute(e.datacontenttype))
    + VisitIfPresent(DATASCHEMA, UriAttribute(e.dataschema))
    + VisitIfPresent(SUBJECT, StringAttribute(e.subject))
    + VisitIfPresent(TIME, TimeAttribute(e.time))
  }

  /** Reference definition of a visit: walk `attrs` in order and emit each attribute whose
      field is set. */
  function PresentInOrder(e: CloudEventV1, attrs: seq<ContextAttribute>): seq<Visit> {
    if attrs == [] then []
    else VisitIfPresent(attrs[0], Field(e, attrs[0])) + PresentInOrder(e, attrs[1..])
  }

  lemma NameInjective(a: ContextAttribute, b: ContextAttribute)
    ensures Name(a) == Name(b) <==> a == b
  {
  }

  lemma PresentInOrderCons(e: CloudEventV1, a: ContextAttribute, rest: seq<ContextAttribute>)
    ensures PresentInOrder(e, [a] + rest) == VisitIfPresent(a, Field(e, a)) + PresentInOrder(e, rest)
  {
    assert ([a] + rest)[1..] == rest;
  }

  /** The optional part of a visit, nested to the right. */
  function OptionalVisits(e: CloudEventV1): seq<Visit> {
    VisitIfPresent(DATACONTENTTYPE, StringAttribute(e.datacontenttype))
    + (VisitIfPresent(DATASCHEMA, UriAttribute(e.dataschema))
       + (VisitIfPresent(SUBJECT, StringAttribute(e.subject))
          + VisitIfPresent(TIME, TimeAttribute(e.time))))
  }

  lemma VisitsShape(e: CloudEventV1)
    ensures Visits(e) == [Visit(Name(ID), StringValue(e.id))]
      + ([Visit(Name(SOURCE), UriValue(e.source))]
         + ([Visit(Name(TYPE), StringValue(e.eventType))] + OptionalVisits(e)))
  {
  }

  /** The visit is the enum order filtered to the attributes that are present. */
  lemma VisitsFollowEnumOrder(e: CloudEventV1)
    ensures Visits(e) == PresentInOrder(e, AllAttributes)
  {
    PresentInOrderCons(e, TIME, []);
    PresentInOrderCons(e, SUBJECT, [TIME]);
    PresentInOrderCons(e, DATASCHEMA, [SUBJECT, TIME]);
    PresentInOrderCons(e, DATACONTENTTYPE, [DATASCHEMA, SUBJECT, TIME]);
    PresentInOrderCons(e, TYPE, [DATACONTENTTYPE, DATASCHEMA, SUBJECT, TIME]);
    PresentInOrderCons(e, SOURCE, [TYPE, DATACONTENTTYPE, DATASCHEMA, SUBJECT, TIME]);
    PresentInOrderCons(e, ID, [SOURCE, TYPE, DATACONTENTTYPE, DATASCHEMA, SUBJECT, TIME]);
    assert [ID] + [SOURCE, TYPE, DATACONTENTTYPE, DATASCHEMA, SUBJECT, TIME] == AllAttributes;
    assert [SOURCE] + [TYPE, DATACONTENTTYPE, DATASCHEMA, SUBJECT, TIME] == [SOURCE, TYPE, DATACONTENTTYPE, DATASCHEMA, SUBJECT, TIME];
    assert [TYPE] + [DATACONTENTTYPE, DATASCHEMA, SUBJECT, TIME] == [TYPE, DATACONTENTTYPE, DATASCHEMA, SUBJECT, TIME];
    assert [DATACONTENTTYPE] + [DATASCHEMA, SUBJECT, TIME] == [DATACONTENTTYPE, DATASCHEMA, SUBJECT, TIME];
    assert [DATASCHEMA] + [SUBJECT, TIME] == [DATASCHEMA, SUBJECT, TIME];
    assert [SUBJECT] + [TIME] == [SUBJECT, TIME];
    assert [TIME] + [] == [TIME];
    assert PresentInOrder(e, [TIME]) == VisitIfPresent(TIME, TimeAttribute(e.time));
    VisitsShape(e);
  }

  /** A name appears in the filtered walk exactly when its attribute is in `attrs` and set,
      and then with the stored value. */
  lemma {:induction false} PresentInOrderMembers(e: CloudEventV1, attrs: seq<ContextAttribute>, a: ContextAttribute)
    ensures forall i :: 0 <= i < |PresentInOrder(e, attrs)| && PresentInOrder(e, attrs)[i].name == Name(a) ==>
      a in attrs && Field(e, a) == Some(PresentInOrder(e, attrs)[i].value)
    ensures a in attrs && Field(e, a).Some? ==>
      exists i :: 0 <= i < |PresentInOrder(e, attrs)| && PresentInOrder(e, attrs)[i].name == Name(a)
  {
    if attrs != [] {
      var tail := attrs[1..];
      PresentInOrderMembers(e, tail, a);
      var head := VisitIfPresent(attrs[0], Field(e, attrs[0]));
      var rest := PresentInOrder(e, tail);
      var all := PresentInOrder(e, attrs);
      assert all == head + rest;
      NameInjective(attrs[0], a);
      if a in attrs && Field(e, a).Some? {
        if a == attrs[0] {
          assert all[0].name == Name(a);
        } else {
          assert a in tail;
          var i :| 0 <= i < |rest| && rest[i].name == Name(a);
          assert all[|head| + i] == rest[i];
        }
      }
      forall i | 0 <= i < |all| && all[i].name == Name(a)
        ensures a in attrs && Field(e, a) == Some(all[i].value)
      {
        if i >= |head| {
          assert rest[i - |head|] == all[i];
          assert a in tail;
        } else {
          assert head == [Visit(Name(attrs[0]), Field(e, attrs[0]).value)];
          assert a == attrs[0];
        }
      }
    }
  }

  /** Optional attributes are visited iff they are set; the required ones always are. */
  lemma VisitedIffPresent(e: CloudEventV1, a: ContextAttribute)
    ensures (exists i :: 0 <= i < |Visits(e)| && Visits(e)[i].name == Name(a)) <==> Field(e, a).Some?
    ensures a in {ID, SOURCE, TYPE} ==> Field(e, a).Some?
  {
    VisitsFollowEnumOrder(e);
    PresentInOrderMembers(e, AllAttributes, a);
    assert a in AllAttributes;
  }

  /** The walk over a list of distinct attributes visits each name at most once. */
  lemma {:induction false} PresentInOrderDistinct(e: CloudEventV1, attrs: seq<ContextAttribute>)
    requires forall i, j :: 0 <= i < j < |attrs| ==> attrs[i] != attrs[j]
    ensures forall i, j :: 0 <= i < j < |PresentInOrder(e, attrs)| ==>
      PresentInOrder(e, attrs)[i].name != PresentInOrder(e, attrs)[j].name
  {
    if attrs != [] {
      var tail := attrs[1..];
      assert forall i, j :: 0 <= i < j < |tail| ==> tail[i] != tail[j] by {
        forall i, j | 0 <= i < j < |tail| ensures tail[i] != tail[j] {
          assert tail[i] == attrs[i + 1] && tail[j] == attrs[j + 1];
        }
      }
      PresentInOrderDistinct(e, tail);
      var head := VisitIfPresent(attrs[0], Field(e, attrs[0]));
      var rest := PresentInOrder(e, tail);
      var all := PresentInOrder(e, attrs);
      assert all == head + rest;
      PresentInOrderMembers(e, tail, attrs[0]);
      assert attrs[0] !in tail;
      forall i, j | 0 <= i < j < |all| ensures all[i].name != all[j].name {
        if i >= |head| {
          assert all[i] == rest[i - |head|] && all[j] == rest[j - |head|];
        } else {
          assert head == [Visit(Name(attrs[0]), Field(e, attrs[0]).value)];
          assert all[i].name == Name(attrs[0]);
          assert all[j] == rest[j - |head|];
        }
      }
    }
  }

  /** Each name is visited at most once, and every visited name is an attribute name. */
  lemma VisitNamesDistinct(e: CloudEventV1)
    ensures forall i, j :: 0 <= i < j < |Visits(e)| ==> Visits(e)[i].name != Visits(e)[j].name
    ensures forall i :: 0 <= i < |Visits(e)| ==> exists a :: Name(a) == Visits(e)[i].name
  {
    VisitsFollowEnumOrder(e);
    PresentInOrderDistinct(e, AllAttributes);
  }

  /** Every visited value is what `getAttribute` returns for the visited name. */
  lemma VisitAgreesWithGetAttribute(e: CloudEventV1)
    ensures forall i :: 0 <= i < |Visits(e)| ==>
      GetAttribute(e, Visits(e)[i].name) == Success(Some(Visits(e)[i].value))
  {
    VisitsFollowEnumOrder(e);
    forall i | 0 <= i < |Visits(e)|
      ensures GetAttribute(e, Visits(e)[i].name) == Success(Some(Visits(e)[i].value))
    {
      var v := Visits(e)[i];
      var a :| a in AllAttributes && Name(a) == v.name;
      PresentInOrderMembers(e, AllAttributes, a);
    }
  }

  /** The `CloudEventVisitException` a writer throws for an attribute it cannot carry. */
  datatype VisitException = UnsupportedAttribute(name: string)

  /** The calls a writer accepts before it throws: the longest prefix of `vs` whose names
      it does not refuse. */
  function AcceptedPrefix(vs: seq<Visit>, refused: set<string>): seq<Visit> {
    if vs == [] || vs[0].name in refused then [] else [vs[0]] + AcceptedPrefix(vs[1..], refused)
  }

  /** How a visit ends: the exception for the first refused name, which aborts the visit. */
  function FirstRefusal(vs: seq<Visit>, refused: set<string>): Outcome<VisitException> {
    if vs == [] then Pass
    else if vs[0].name in refused then Fail(UnsupportedAttribute(vs[0].name))
    else FirstRefusal(vs[1..], refused)
  }

  /** A visit that ends normally delivered every call. */
  lemma {:induction false} CompleteVisit(vs: seq<Visit>, refused: set<string>)
    ensures FirstRefusal(vs, refused) == Pass <==> AcceptedPrefix(vs, refused) == vs
    ensures FirstRefusal(vs, refused).Fail? ==> FirstRefusal(vs, refused).error.name in refused
  {
    if vs != [] && vs[0].name !in refused {
      CompleteVisit(vs[1..], refused);
      assert vs == [vs[0]] + vs[1..];
    }
  }

  /** A writer of attributes (`CloudEventAttributesVisitor`) that records the calls it
      accepts and throws for the names in `refused`. */
  class RecordingVisitor {
    const refused: set<string>
    var log: seq<Visit>

    constructor (refused: set<string>)
      ensures this.refused == refused && log == []
    {
      this.refused := refused;
      log := [];
    }

    method SetAttribute(name: string, value: AttributeValue) returns (outcome: Outcome<VisitException>)
      modifies this
      ensures outcome == if name in refused then Fail(UnsupportedAttribute(name)) else Pass
      ensures log == if name in refused then old(log) else old(log) + [Visit(name, value)]
    {
      if name in refused {
        outcome := Fail(UnsupportedAttribute(name));
      } else {
        log := log + [Visit(name, value)];
        outcome := Pass;
      }
    }
  }

  /** The bookkeeping of one step of a visit: `done` is what the writer accepted so far and
      `v` then `rest` what is still to come. */
  lemma VisitStep(vs: seq<Visit>, done: seq<Visit>, v: Visit, rest: seq<Visit>, refused: set<string>)
    requires AcceptedPrefix(vs, refused) == done + AcceptedPrefix([v] + rest, refused)
    requires FirstRefusal(vs, refused) == FirstRefusal([v] + rest, refused)
    ensures v.name in refused ==> AcceptedPrefix(vs, refused) == done
    ensures v.name in refused ==> FirstRefusal(vs, refused) == Fail(UnsupportedAttribute(v.name))
    ensures v.name !in refused ==> AcceptedPrefix(vs, refused) == (done + [v]) + AcceptedPrefix(rest, refused)
    ensures v.name !in refused ==> FirstRefusal(vs, refused) == FirstRefusal(rest, refused)
  {
    assert ([v] + rest)[1..] == rest;
  }

  /** One `visitor.setAttribute` call of `visitAttributes`, together with the step of the
      proof that ties it to the whole visit `all`. */
  method SetAttributeStep(visitor: RecordingVisitor, v: Visit, ghost all: seq<Visit>, ghost log0: seq<Visit>,
                          ghost done: seq<Visit>, ghost rest: seq<Visit>) returns (outcome: Outcome<VisitException>)
    requires visitor.log == log0 + done
    requires AcceptedPrefix(all, visitor.refused) == done + AcceptedPrefix([v] + rest, visitor.refused)
    requires FirstRefusal(all, visitor.refused) == FirstRefusal([v] + rest, visitor.refused)
    modifies visitor
    ensures outcome.Fail? ==> visitor.log == log0 + AcceptedPrefix(all, visitor.refused)
    ensures outcome.Fail? ==> outcome == FirstRefusal(all, visitor.refused)
    ensures outcome.Pass? ==> visitor.log == log0 + (done + [v])
    ensures outcome.Pass? ==> AcceptedPrefix(all, visitor.refused) == (done + [v]) + AcceptedPrefix(rest, visitor.refused)
    ensures outcome.Pass? ==> FirstRefusal(all, visitor.refused) == FirstRefusal(rest, visitor.refused)
  {
    VisitStep(all, done, v, rest, visitor.refused);
    outcome := visitor.SetAttribute(v.name, v.value);
  }

  /** One `if (this.a != null) visitor.setAttribute(...)` of `visitAttributes`: a call only
      when the attribute's field `v` is set, with the step of the proof for the whole visit. */
  method OptionalStep(visitor: RecordingVisitor, a: ContextAttribute, v: Option<AttributeValue>,
                      ghost all: seq<Visit>, ghost log0: seq<Visit>, ghost done: seq<Visit>, ghost rest: seq<Visit>)
    returns (outcome: Outcome<VisitException>, ghost done': seq<Visit>)
    requires visitor.log == log0 + done
    requires AcceptedPrefix(all, visitor.refused) == done + AcceptedPrefix(VisitIfPresent(a, v) + rest, visitor.refused)
    requires FirstRefusal(all, visitor.refused) == FirstRefusal(VisitIfPresent(a, v) + rest, visitor.refused)
    modifies visitor
    ensures outcome.Fail? ==> visitor.log == log0 + AcceptedPrefix(all, visitor.refused)
    ensures outcome.Fail? ==> outcome == FirstRefusal(all, visitor.refused)
    ensures outcome.Pass? ==> visitor.log == log0 + done'
    ensures outcome.Pass? ==> AcceptedPrefix(all, visitor.refused) == done' + AcceptedPrefix(rest, visitor.refused)
    ensures outcome.Pass? ==> FirstRefusal(all, visitor.refused) == FirstRefusal(rest, visitor.refused)
  {
    if v.Some? {
      outcome := SetAttributeStep(visitor, Visit(Name(a), v.value), all, log0, done, rest);
      done' := done + [Visit(Name(a), v.value)];
    } else {
      assert VisitIfPresent(a, v) + rest == rest;
      outcome := Pass;
      done' := done;
    }
  }

  /** `visitAttributes`: push the attributes into `visitor`, in enum order, skipping the
      optional ones that are `null`. An exception from the visitor aborts the visit and
      propagates. The event itself is a value and cannot change. */
  method VisitAttributes(e: CloudEventV1, visitor: RecordingVisitor) returns (outcome: Outcome<VisitException>)
    modifies visitor
    ensures visitor.log == old(visitor.log) + AcceptedPrefix(Visits(e), visitor.refused)
    ensures outcome == FirstRefusal(Visits(e), visitor.refused)
  {
    ghost var all := Visits(e);
    ghost var log0 := visitor.log;
    ghost var done: seq<Visit> := [];
    ghost var ds := VisitIfPresent(DATASCHEMA, UriAttribute(e.dataschema));
    ghost var su := VisitIfPresent(SUBJECT, StringAttribute(e.subject));
    ghost var ti := VisitIfPresent(TIME, TimeAttribute(e.time));
    VisitsShape(e);
    assert log0 == log0 + done;
    outcome := SetAttributeStep(visitor, Visit(Name(ID), StringValue(e.id)), all, log0, done,
      [Visit(Name(SOURCE), UriValue(e.source))] + ([Visit(Name(TYPE), StringValue(e.eventType))] + OptionalVisits(e)));
    if outcome.Fail? { return; }
    done := done + [Visit(Name(ID), StringValue(e.id))];
    outcome := SetAttributeStep(visitor, Visit(Name(SOURCE), UriValue(e.source)), all, log0, done,
      [Visit(Name(TYPE), StringValue(e.eventType))] + OptionalVisits(e));
    if outcome.Fail? { return; }
    done := done + [Visit(Name(SOURCE), UriValue(e.source))];
    outcome := SetAttributeStep(visitor, Visit(Name(TYPE), StringValue(e.eventType)), all, log0, done,
      OptionalVisits(e));
    if outcome.Fail? { return; }
    done := done + [Visit(Name(TYPE), StringValue(e.eventType))];
    assert OptionalVisits(e) == VisitIfPresent(DATACONTENTTYPE, StringAttribute(e.datacontenttype)) + (ds + (su + ti));
    outcome, done := OptionalStep(visitor, DATACONTENTTYPE, StringAttribute(e.datacontenttype), all, log0, done, ds + (su + ti));
    if outcome.Fail? { return; }
    outcome, done := OptionalStep(visitor, DATASCHEMA, UriAttribute(e.dataschema), all, log0, done, su + ti);
    if outcome.Fail? { return; }
    outcome, done := OptionalStep(visitor, SUBJECT, StringAttribute(e.subject), all, log0, done, ti);
    if outcome.Fail? { return; }
    assert ti == ti + [];
    outcome, done := OptionalStep(visitor, TIME, TimeAttribute(e.time), all, log0, done, []);
    if outcome.Fail? { return; }
    assert AcceptedPrefix(all, visitor.refused) == done;
    outcome := Pass;
  }

  /** `Arrays.equals` on the data: both `null`, or the same length and equal element by element. */
  function ArraysEquals(a: Option<seq<Byte>>, b: Option<seq<Byte>>): bool {
    if a.None? || b.None? then a.None? && b.None?
    else |a.value| == |b.value| && forall i :: 0 <= i < |a.value| ==> a.value[i] == b.value[i]
  }

  lemma ArraysEqualsIsEquality(a: Option<seq<Byte>>, b: Option<seq<Byte>>)
    ensures ArraysEquals(a, b) <==> a == b
  {
    if ArraysEquals(a, b) && a.Some? {
      assert a.value == b.value;
    }
  }

  /** `equals`: the seven attributes, the data bytes and the extension map are all equal.
      `null` and objects of another class are unequal. (The identity shortcut `this == o`
      agrees with the field comparison on a value.) */
  function Equals(e: CloudEventV1, o: EqualsArg<CloudEventV1>): bool {
    match o
    case Null => false
    case OtherClass => false
    case SameClass(that) =>
      && e.id == that.id
      && e.source == that.source
      && e.eventType == that.eventType
      && e.datacontenttype == that.datacontenttype
      && e.dataschema == that.dataschema
      && e.subject == that.subject
      && e.time == that.time
      && ArraysEquals(e.data, that.data)
      && e.extensions == that.extensions
  }

  /** Two events are `equals` exactly when they are the same value. */
  lemma EqualsIsStructural(e: CloudEventV1, that: CloudEventV1)
    ensures Equals(e, SameClass(that)) <==> e == that
  {
    ArraysEqualsIsEquality(e.data, that.data);
  }

  /** `equals` is reflexive and symmetric, and rejects `null` and other classes. */
  lemma EqualsIsEquivalence(e: CloudEventV1, that: CloudEventV1)
    ensures Equals(e, SameClass(e))
    ensures Equals(e, SameClass(that)) == Equals(that, SameClass(e))
    ensures !Equals(e, Null) && !Equals(e, OtherClass)
  {
    EqualsIsStructural(e, e);
    EqualsIsStructural(e, that);
    EqualsIsStructural(that, e);
  }

  /** The nine components `hashCode` passes to `Objects.hash`, the data through `Arrays.hashCode`. */
  datatype HashInput = HashInput(
    id: string, source: Uri, eventType: string, datacontenttype: Option<string>,
    dataschema: Option<Uri>, subject: Option<string>, time: Option<Timestamp>,
    data: Option<seq<Byte>>, extensions: map<string, ExtensionValue>)

  /** `hashCode`, for whatever combining function `hash` stands for `Objects.hash`. */
  function HashCode(e: CloudEventV1, hash: HashInput -> int): int {
    hash(HashInput(e.id, e.source, e.eventType, e.datacontenttype, e.dataschema, e.subject, e.time,
      e.data, e.extensions))
  }

  /** Equal events have equal hash codes, whatever the combining function. */
  lemma EqualEventsHashEqually(e: CloudEventV1, that: CloudEventV1, hash: HashInput -> int)
    requires Equals(e, SameClass(that))
    ensures HashCode(e, hash) == HashCode(that, hash)
  {
    ArraysEqualsIsEquality(e.data, that.data);
  }
}
