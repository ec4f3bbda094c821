/**
 * `EventSubscriptionDeclaration` of the engine's BPMN parser: the message or
 * signal event a scope waits for, and how it subscribes an execution to that
 * event. The process definition is abstracted as a map from activity id to
 * activity, and the persistence of subscriptions as the execution's list of
 * subscriptions with an id counter (`Execution`).
 */
module EventSubscriptions {
  import opened Wrappers

  /** `MessageEventHandler.EVENT_HANDLER_TYPE`. */
  const MESSAGE := "message"
  /** `SignalEventHandler.EVENT_HANDLER_TYPE`. */
  const SIGNAL := "signal"
  /** `BpmnParse.PROPERTYNAME_EVENT_SUBSCRIPTION_DECLARATION`: the scope property holding the declarations. */
  const EVENT_DEFINITIONS := "eventDefinitions"

  /** The exceptions the declaration lets escape. */
  datatype EngineError =
    | NullPointer                          // a null event type, or an activity the definition lacks
    | UnknownEventType(eventType: string)  // "Found event definition of unknown type"

  /** An activity of the process definition and whether its behaviour is a parallel multi-instance one. */
  datatype Activity = Activity(id: string, parallelMultiInstance: bool)

  /** The activity of a new subscription: left as the entity's constructor set it, or set by the declaration. */
  datatype ActivitySetting = ConstructorDefault | SetTo(activity: Option<Activity>)

  /** An event subscription entity of an execution. */
  datatype Subscription = Subscription(id: nat, eventType: string, eventName: Option<string>, activity: ActivitySetting)

  // ----------------------------------------------------------------------------
  // Subscription lists
  // ----------------------------------------------------------------------------

  /**
   * The id at position `k`. The id facts below are stated through it, so that
   * they are only instantiated where a proof asks for them.
   */
  function IdAt(subs: seq<Subscription>, k: nat): nat
    requires k < |subs|
  {
    subs[k].id
  }

  /** No two subscriptions of the list share an id. */
  predicate DistinctIds(subs: seq<Subscription>)
  {
    forall j, k | 0 <= j < k < |subs| :: IdAt(subs, j) != IdAt(subs, k)
  }

  /** Every subscription of the list has an id below `bound`. */
  predicate IdsBelow(subs: seq<Subscription>, bound: nat)
  {
    forall k | 0 <= k < |subs| :: IdAt(subs, k) < bound
  }

  /** Distinct ids, all below the next id to be handed out. */
  predicate Fresh(subs: seq<Subscription>, nextId: nat)
  {
    DistinctIds(subs) && IdsBelow(subs, nextId)
  }

  /** The list with the subscription of the given id taken out. */
  function WithoutId(subs: seq<Subscription>, id: nat): seq<Subscription>
  {
    if subs == [] then []
    else (if subs[0].id == id then [] else [subs[0]]) + WithoutId(subs[1..], id)
  }

  /** Taking out an id keeps exactly the subscriptions with another id. */
  lemma {:induction false} WithoutIdMembers(subs: seq<Subscription>, id: nat)
    ensures forall s :: s in WithoutId(subs, id) <==> s in subs && s.id != id
  {
    if subs != [] {
      WithoutIdMembers(subs[1..], id);
      assert subs == [subs[0]] + subs[1..];
    }
  }

  lemma {:induction false} WithoutIdConcat(a: seq<Subscription>, b: seq<Subscription>, id: nat)
    ensures WithoutId(a + b, id) == WithoutId(a, id) + WithoutId(b, id)
  {
    if a != [] {
      assert (a + b)[0] == a[0];
      assert (a + b)[1..] == a[1..] + b;
      WithoutIdConcat(a[1..], b, id);
    } else {
      assert a + b == b;
    }
  }

  lemma {:induction false} WithoutAbsentId(subs: seq<Subscription>, id: nat)
    requires forall s | s in subs :: s.id != id
    ensures WithoutId(subs, id) == subs
  {
    if subs != [] {
      WithoutAbsentId(subs[1..], id);
    }
  }

  /** The subscriptions whose event type is not `t`, in order. */
  function OfOtherTypes(subs: seq<Subscription>, t: string): seq<Subscription>
  {
    if subs == [] then []
    else
      var last := subs[|subs| - 1];
      OfOtherTypes(subs[..|subs| - 1], t) + (if last.eventType != t then [last] else [])
  }

  /** The subscriptions of other types are exactly those whose type is not `t`. */
  lemma {:induction false} OfOtherTypesMembers(subs: seq<Subscription>, t: string)
    ensures forall s :: s in OfOtherTypes(subs, t) <==> s in subs && s.eventType != t
  {
    if subs != [] {
      OfOtherTypesMembers(subs[..|subs| - 1], t);
      assert subs == subs[..|subs| - 1] + [subs[|subs| - 1]];
    }
  }

  /** How many subscriptions have event type `t`. */
  function CountOfType(subs: seq<Subscription>, t: string): nat
  {
    if subs == [] then 0
    else CountOfType(subs[..|subs| - 1], t) + (if subs[|subs| - 1].eventType == t then 1 else 0)
  }

  /** The first subscription of event type `t`. */
  function FirstOfType(subs: seq<Subscription>, t: string): (s: Subscription)
    requires CountOfType(subs, t) > 0
    ensures s in subs && s.eventType == t
  {
    var n := |subs| - 1;
    if CountOfType(subs[..n], t) > 0 then
      var s := FirstOfType(subs[..n], t);
      assert s in subs[..n];
      s
    else
      subs[n]
  }

  /** `n` copies of `template` under the ids `firstId`, `firstId + 1`, ... */
  function Replacements(template: Subscription, firstId: nat, n: nat): (r: seq<Subscription>)
    ensures |r| == n
    ensures forall k | 0 <= k < n :: r[k] == template.(id := firstId + k)
  {
    if n == 0 then [] else Replacements(template, firstId, n - 1) + [template.(id := firstId + n - 1)]
  }

  /** The multiset of event types of a list. */
  function EventTypes(subs: seq<Subscription>): multiset<string>
  {
    if subs == [] then multiset{} else EventTypes(subs[..|subs| - 1]) + multiset{subs[|subs| - 1].eventType}
  }

  lemma {:induction false} EventTypesConcat(a: seq<Subscription>, b: seq<Subscription>)
    ensures EventTypes(a + b) == EventTypes(a) + EventTypes(b)
    decreases |b|
  {
    if b != [] {
      var n := |b| - 1;
      assert (a + b)[..|a + b| - 1] == a + b[..n];
      assert (a + b)[|a + b| - 1] == b[n];
      EventTypesConcat(a, b[..n]);
    } else {
      assert a + b == a;
    }
  }

  /** The event types of a list with one more subscription. */
  lemma EventTypesSnoc(subs: seq<Subscription>, s: Subscription)
    ensures EventTypes(subs + [s]) == EventTypes(subs) + multiset{s.eventType}
  {
    assert (subs + [s])[..|subs|] == subs;
  }

  /**
   * Replacing each subscription of type `t` by one of type `t` keeps the
   * number of subscriptions of every event type.
   */
  lemma {:induction false} ReplacementKeepsEventTypes(subs: seq<Subscription>, t: string, template: Subscription, firstId: nat)
    requires template.eventType == t
    ensures EventTypes(OfOtherTypes(subs, t) + Replacements(template, firstId, CountOfType(subs, t))) == EventTypes(subs)
    decreases |subs|
  {
    if subs != [] {
      var n := |subs| - 1;
      var prefix := subs[..n];
      ReplacementKeepsEventTypes(prefix, t, template, firstId);
      if subs[n].eventType == t {
        ReplacedLast(subs, t, template, firstId);
      } else {
        KeptLast(subs, t, template, firstId);
      }
    }
  }

  /** The step of `ReplacementKeepsEventTypes` where the last subscription has type `t`. */
  lemma ReplacedLast(subs: seq<Subscription>, t: string, template: Subscription, firstId: nat)
    requires subs != [] && subs[|subs| - 1].eventType == t && template.eventType == t
    requires var prefix := subs[..|subs| - 1];
      EventTypes(OfOtherTypes(prefix, t) + Replacements(template, firstId, CountOfType(prefix, t))) == EventTypes(prefix)
    ensures EventTypes(OfOtherTypes(subs, t) + Replacements(template, firstId, CountOfType(subs, t))) == EventTypes(subs)
  {
    var prefix := subs[..|subs| - 1];
    var kept := OfOtherTypes(prefix, t);
    var count := CountOfType(prefix, t);
    var added := Replacements(template, firstId, count);
    var x := template.(id := firstId + count);
    assert OfOtherTypes(subs, t) == kept;
    assert CountOfType(subs, t) == count + 1;
    assert Replacements(template, firstId, count + 1) == added + [x];
    assert kept + (added + [x]) == (kept + added) + [x];
    EventTypesSnoc(kept + added, x);
    assert EventTypes(kept + (added + [x])) == EventTypes(prefix) + multiset{t};
    assert EventTypes(subs) == EventTypes(prefix) + multiset{t};
  }

  /** The step of `ReplacementKeepsEventTypes` where the last subscription has another type. */
  lemma KeptLast(subs: seq<Subscription>, t: string, template: Subscription, firstId: nat)
    requires subs != [] && subs[|subs| - 1].eventType != t
    requires var prefix := subs[..|subs| - 1];
      EventTypes(OfOtherTypes(prefix, t) + Replacements(template, firstId, CountOfType(prefix, t))) == EventTypes(prefix)
    ensures EventTypes(OfOtherTypes(subs, t) + Replacements(template, firstId, CountOfType(subs, t))) == EventTypes(subs)
  {
    var prefix := subs[..|subs| - 1];
    var last := subs[|subs| - 1];
    var kept := OfOtherTypes(prefix, t);
    var added := Replacements(template, firstId, CountOfType(prefix, t));
    EventTypesConcat(kept + [last], added);
    EventTypesConcat(kept, added);
    EventTypesSnoc(kept, last);
  }

  /** A list without subscriptions of type `t` is its own list of other types. */
  lemma {:induction false} OnlyOtherTypes(subs: seq<Subscription>, t: string)
    requires CountOfType(subs, t) == 0
    ensures OfOtherTypes(subs, t) == subs
    decreases |subs|
  {
    if subs != [] {
      var n := |subs| - 1;
      OnlyOtherTypes(subs[..n], t);
      assert subs == subs[..n] + [subs[n]];
    }
  }

  /** Replacing each subscription of type `t` keeps the length of the list. */
  lemma {:induction false} ReplacementKeepsLength(subs: seq<Subscription>, t: string)
    ensures |OfOtherTypes(subs, t)| + CountOfType(subs, t) == |subs|
    decreases |subs|
  {
    if subs != [] {
      ReplacementKeepsLength(subs[..|subs| - 1], t);
    }
  }

  lemma {:induction false} OfOtherTypesConcat(a: seq<Subscription>, b: seq<Subscription>, t: string)
    ensures OfOtherTypes(a + b, t) == OfOtherTypes(a, t) + OfOtherTypes(b, t)
    ensures CountOfType(a + b, t) == CountOfType(a, t) + CountOfType(b, t)
    decreases |b|
  {
    if b == [] {
      assert a + b == a;
    } else {
      var n := |b| - 1;
      assert (a + b)[..|a + b| - 1] == a + b[..n];
      assert (a + b)[|a + b| - 1] == b[n];
      OfOtherTypesConcat(a, b[..n], t);
    }
  }

  /** The subscriptions of other types hold none of type `t`, and keeping them again changes nothing. */
  lemma {:induction false} OtherTypesOnly(subs: seq<Subscription>, t: string)
    ensures CountOfType(OfOtherTypes(subs, t), t) == 0
    ensures OfOtherTypes(OfOtherTypes(subs, t), t) == OfOtherTypes(subs, t)
    decreases |subs|
  {
    if subs != [] {
      var n := |subs| - 1;
      OtherTypesOnly(subs[..n], t);
      OfOtherTypesConcat(OfOtherTypes(subs[..n], t), if subs[n].eventType != t then [subs[n]] else [], t);
      assert [subs[n]][..0] == [];
    }
  }

  /** Replacements of type `t` are all counted as type `t`. */
  lemma {:induction false} ReplacementsOfType(template: Subscription, firstId: nat, n: nat, t: string)
    requires template.eventType == t
    ensures CountOfType(Replacements(template, firstId, n), t) == n
    ensures OfOtherTypes(Replacements(template, firstId, n), t) == []
  {
    if n > 0 {
      ReplacementsOfType(template, firstId, n - 1, t);
      OfOtherTypesConcat(Replacements(template, firstId, n - 1), [template.(id := firstId + n - 1)], t);
      assert [template.(id := firstId + n - 1)][..0] == [];
    }
  }

  // ----------------------------------------------------------------------------
  // The execution, as far as the declaration uses it
  // ----------------------------------------------------------------------------

  class Execution {
    /** `getProcessDefinition().findActivity`: the definition's activities by id. */
    const activities: map<string, Activity>
    /** `getEventSubscriptions()`. */
    var subscriptions: seq<Subscription>
    /** The id the persistence layer gives to the next inserted subscription. */
    var nextId: nat

    ghost predicate Valid()
      reads this
    {
      Fresh(subscriptions, nextId)
    }

    constructor (activities: map<string, Activity>)
      ensures Valid()
      ensures this.activities == activities && subscriptions == [] && nextId == 0
    {
      this.activities := activities;
      subscriptions := [];
      nextId := 0;
    }

    /** `insert()`: the subscription gets a fresh id and joins the execution's list. */
    method Insert(s: Subscription) returns (inserted: Subscription)
      requires Valid()
      modifies this`subscriptions, this`nextId
      ensures Valid()
      ensures inserted == s.(id := old(nextId))
      ensures subscriptions == old(subscriptions) + [inserted] && nextId == old(nextId) + 1
    {
      inserted := s.(id := nextId);
      var listed := subscriptions + [inserted];
      forall k | 0 <= k < |listed| ensures IdAt(listed, k) < nextId + 1 {
        if k < |subscriptions| {
          assert IdAt(listed, k) == IdAt(subscriptions, k);
        }
      }
      forall j, k | 0 <= j < k < |listed| ensures IdAt(listed, j) != IdAt(listed, k) {
        assert IdAt(listed, j) == IdAt(subscriptions, j);
        if k < |subscriptions| {
          assert IdAt(listed, k) == IdAt(subscriptions, k);
        }
      }
      subscriptions := listed;
      nextId := nextId + 1;
    }

    /** `delete()`: the subscription leaves the execution's list. */
    method Delete(id: nat)
      requires Valid()
      modifies this`subscriptions
      ensures Valid()
      ensures subscriptions == WithoutId(old(subscriptions), id)
    {
      WithoutIdKeepsDistinct(subscriptions, id);
      WithoutIdKeepsBelow(subscriptions, id, nextId);
      subscriptions := WithoutId(subscriptions, id);
    }
  }

  lemma {:induction false} WithoutIdKeepsDistinct(subs: seq<Subscription>, id: nat)
    requires DistinctIds(subs)
    ensures DistinctIds(WithoutId(subs, id))
  {
    if subs != [] {
      var rest := WithoutId(subs[1..], id);
      assert DistinctIds(subs[1..]) by {
        forall j, k | 0 <= j < k < |subs| - 1 ensures IdAt(subs[1..], j) != IdAt(subs[1..], k) {
          assert IdAt(subs, j + 1) != IdAt(subs, k + 1);
        }
      }
      WithoutIdKeepsDistinct(subs[1..], id);
      WithoutIdMembers(subs[1..], id);
      var r := WithoutId(subs, id);
      if subs[0].id != id {
        assert r == [subs[0]] + rest;
        forall j, k | 0 <= j < k < |r| ensures IdAt(r, j) != IdAt(r, k) {
          if j == 0 {
            assert r[k] == rest[k - 1] && rest[k - 1] in rest;
            var m :| 0 <= m < |subs| - 1 && subs[1..][m] == r[k];
            assert IdAt(subs, 0) != IdAt(subs, m + 1);
          } else {
            assert IdAt(r, j) == IdAt(rest, j - 1) && IdAt(r, k) == IdAt(rest, k - 1);
          }
        }
      } else {
        assert r == [] + rest == rest;
      }
    }
  }

  lemma {:induction false} WithoutIdKeepsBelow(subs: seq<Subscription>, id: nat, bound: nat)
    requires IdsBelow(subs, bound)
    ensures IdsBelow(WithoutId(subs, id), bound)
  {
    var r := WithoutId(subs, id);
    WithoutIdMembers(subs, id);
    forall k | 0 <= k < |r| ensures IdAt(r, k) < bound {
      assert r[k] in r;
      var m :| 0 <= m < |subs| && subs[m] == r[k];
      assert IdAt(subs, m) < bound;
    }
  }

  // ----------------------------------------------------------------------------
  // The declaration's decisions, as functions
  // ----------------------------------------------------------------------------

  /**
   * Whether the declaration's activity is parallel multi-instance: false
   * without an activity id; a missing activity makes the behaviour lookup
   * dereference null.
   */
  function ParallelMultiInstanceOf(activityId: Option<string>, activities: map<string, Activity>): (r: Result<bool, EngineError>)
    ensures activityId.None? ==> r == Ok(false)
    ensures r.Err? <==> activityId.Some? && activityId.value !in activities
    ensures r == Ok(true) <==> activityId.Some? && activityId.value in activities && activities[activityId.value].parallelMultiInstance
  {
    match activityId
    case None => Ok(false)
    case Some(id) => if id in activities then Ok(activities[id].parallelMultiInstance) else Err(NullPointer)
  }

  /** The cached answer when there is one, else a fresh lookup. */
  function Memoised(cache: Option<bool>, activityId: Option<string>, activities: map<string, Activity>): (r: Result<bool, EngineError>)
    ensures cache.Some? ==> r == Ok(cache.value)
    ensures cache.None? ==> r == ParallelMultiInstanceOf(activityId, activities)
  {
    if cache.Some? then Ok(cache.value) else ParallelMultiInstanceOf(activityId, activities)
  }

  /** The entity type `createEventSubscription` instantiates for an event type. */
  function EntityTypeFor(eventType: Option<string>): (r: Result<string, EngineError>)
    ensures eventType.None? ==> r == Err(NullPointer)
    ensures r.Ok? <==> eventType == Some(MESSAGE) || eventType == Some(SIGNAL)
    ensures r.Ok? ==> eventType == Some(r.value)
    ensures eventType.Some? && r.Err? ==> r.error == UnknownEventType(eventType.value)
  {
    match eventType
    case None => Err(NullPointer)
    case Some(t) =>
      if t == MESSAGE then Ok(MESSAGE)
      else if t == SIGNAL then Ok(SIGNAL)
      else Err(UnknownEventType(t))
  }

  /** The subscription `createEventSubscription` builds, before it is inserted and given its id. */
  function NewSubscription(eventType: Option<string>, eventName: Option<string>, activityId: Option<string>,
                           activities: map<string, Activity>): (r: Result<Subscription, EngineError>)
    ensures r.Err? <==> EntityTypeFor(eventType).Err?
    ensures r.Err? ==> r.error == EntityTypeFor(eventType).error
    ensures r.Ok? ==> eventType == Some(r.value.eventType) && r.value.eventName == eventName
    ensures r.Ok? ==> (r.value.activity == ConstructorDefault <==> activityId.None?)
    ensures r.Ok? && activityId.Some? && activityId.value in activities ==> r.value.activity == SetTo(Some(activities[activityId.value]))
    ensures r.Ok? && activityId.Some? && activityId.value !in activities ==> r.value.activity == SetTo(None)
  {
    match EntityTypeFor(eventType)
    case Err(e) => Err(e)
    case Ok(t) =>
      var activity := match activityId
        case None => ConstructorDefault
        case Some(id) => SetTo(if id in activities then Some(activities[id]) else None);
      Ok(Subscription(0, t, eventName, activity))
  }

  /** `getDeclarationsForScope`: the list stored in the scope's property, or an empty list. */
  function DeclarationsForScope(properties: map<string, seq<EventSubscriptionDeclaration>>): (declarations: seq<EventSubscriptionDeclaration>)
    ensures EVENT_DEFINITIONS in properties ==> declarations == properties[EVENT_DEFINITIONS]
    ensures EVENT_DEFINITIONS !in properties ==> declarations == []
  {
    if EVENT_DEFINITIONS in properties then properties[EVENT_DEFINITIONS] else []
  }

  /**
   * The outcome of `handleSequentialMultiInstanceLeave` on a list of
   * subscriptions and the next free id, given the subscription each
   * `createEventSubscription` builds: the result, the new list and the new next id.
   */
  function Leave(subs: seq<Subscription>, nextId: nat, eventType: Option<string>, built: Result<Subscription, EngineError>)
    : (outcome: (Result<(), EngineError>, seq<Subscription>, nat))
    ensures eventType.None? ==> outcome == (Ok(()), subs, nextId)
    ensures eventType.Some? && CountOfType(subs, eventType.value) == 0 ==> outcome == (Ok(()), subs, nextId)
    ensures outcome.0.Err? <==> eventType.Some? && CountOfType(subs, eventType.value) > 0 && built.Err?
    ensures outcome.0.Err? ==> outcome.0.error == built.error
    ensures outcome.2 >= nextId
  {
    if eventType.None? || CountOfType(subs, eventType.value) == 0 then (Ok(()), subs, nextId)
    else
      var t := eventType.value;
      var n := CountOfType(subs, t);
      match built
      case Ok(template) => (Ok(()), OfOtherTypes(subs, t) + Replacements(template, nextId, n), nextId + n)
      case Err(e) => (Err(e), WithoutId(subs, FirstOfType(subs, t).id), nextId)
  }

  /**
   * Leaving with a buildable subscription of type `t`: the subscriptions of
   * other types stay as they were and in their order, there are as many of
   * type `t` as before, every one of them is the built subscription under a
   * new id (one that was free on entry), and one id was used per replacement.
   */
  lemma {:induction false} LeaveReplaces(subs: seq<Subscription>, nextId: nat, t: string, template: Subscription)
    requires template.eventType == t
    ensures var (r, after, next) := Leave(subs, nextId, Some(t), Ok(template));
      && r == Ok(())
      && OfOtherTypes(after, t) == OfOtherTypes(subs, t)
      && CountOfType(after, t) == CountOfType(subs, t)
      && next == nextId + CountOfType(subs, t)
      && (CountOfType(subs, t) > 0 ==> forall s | s in after && s.eventType == t :: s.id >= nextId && s == template.(id := s.id))
  {
    var n := CountOfType(subs, t);
    if n == 0 {
      OnlyOtherTypes(subs, t);
    } else {
      var kept := OfOtherTypes(subs, t);
      var added := Replacements(template, nextId, n);
      assert Leave(subs, nextId, Some(t), Ok(template)) == (Ok(()), kept + added, nextId + n);
      OfOtherTypesConcat(kept, added, t);
      OtherTypesOnly(subs, t);
      ReplacementsOfType(template, nextId, n, t);
      assert OfOtherTypes(kept + added, t) == kept + [] == kept;
      ReplacementsAreNew(kept, added, subs, t, template, nextId, n);
    }
  }

  /** Leaving with a buildable subscription of type `t` keeps the number of subscriptions of every event type. */
  lemma {:induction false} LeaveKeepsEventTypes(subs: seq<Subscription>, nextId: nat, t: string, template: Subscription)
    requires template.eventType == t
    ensures EventTypes(Leave(subs, nextId, Some(t), Ok(template)).1) == EventTypes(subs)
  {
    if CountOfType(subs, t) > 0 {
      ReplacementKeepsEventTypes(subs, t, template, nextId);
    }
  }

  /** Leaving with a buildable subscription keeps the number of subscriptions. */
  lemma {:induction false} LeaveKeepsLength(subs: seq<Subscription>, nextId: nat, t: string, template: Subscription)
    ensures |Leave(subs, nextId, Some(t), Ok(template)).1| == |subs|
  {
    if CountOfType(subs, t) > 0 {
      ReplacementKeepsLength(subs, t);
    }
  }

  lemma ReplacementsAreNew(kept: seq<Subscription>, added: seq<Subscription>, subs: seq<Subscription>, t: string,
                           template: Subscription, nextId: nat, n: nat)
    requires kept == OfOtherTypes(subs, t) && added == Replacements(template, nextId, n)
    ensures forall s | s in kept + added && s.eventType == t :: s.id >= nextId && s == template.(id := s.id)
  {
    OfOtherTypesMembers(subs, t);
    forall s | s in kept + added && s.eventType == t ensures s.id >= nextId && s == template.(id := s.id) {
      assert s !in kept;
      var k :| 0 <= k < n && added[k] == s;
    }
  }

  /**
   * Leaving keeps the ids distinct and below the next free id, whether every
   * replacement succeeds or the first one fails.
   */
  lemma {:induction false} LeaveKeepsFresh(subs: seq<Subscription>, nextId: nat, eventType: Option<string>, built: Result<Subscription, EngineError>)
    requires Fresh(subs, nextId)
    ensures var (_, after, next) := Leave(subs, nextId, eventType, built); Fresh(after, next)
  {
    if eventType.Some? && CountOfType(subs, eventType.value) > 0 {
      var t := eventType.value;
      var n := CountOfType(subs, t);
      if built.Ok? {
        var kept := OfOtherTypes(subs, t);
        var added := Replacements(built.value, nextId, n);
        var after := kept + added;
        OfOtherTypesMembers(subs, t);
        forall k | 0 <= k < |after| ensures IdAt(after, k) < nextId + n {
          if k < |kept| {
            assert after[k] in subs;
            var m :| 0 <= m < |subs| && subs[m] == after[k];
            assert IdAt(subs, m) < nextId;
          } else {
            assert after[k] == added[k - |kept|];
          }
        }
        OtherTypesKeepDistinct(subs, t);
        forall j, k | 0 <= j < k < |after| ensures IdAt(after, j) != IdAt(after, k) {
          if k < |kept| {
            assert IdAt(after, j) == IdAt(kept, j) && IdAt(after, k) == IdAt(kept, k);
          } else if j < |kept| {
            assert after[j] in subs;
            var m :| 0 <= m < |subs| && subs[m] == after[j];
            assert IdAt(subs, m) < nextId;
            assert after[k] == added[k - |kept|];
          } else {
            assert after[j] == added[j - |kept|] && after[k] == added[k - |kept|];
          }
        }
      } else {
        WithoutIdKeepsDistinct(subs, FirstOfType(subs, t).id);
        WithoutIdKeepsBelow(subs, FirstOfType(subs, t).id, nextId);
      }
    }
  }

  /** The subscriptions of other types of a list with distinct ids have distinct ids. */
  lemma {:induction false} OtherTypesKeepDistinct(subs: seq<Subscription>, t: string)
    requires DistinctIds(subs)
    ensures DistinctIds(OfOtherTypes(subs, t))
    decreases |subs|
  {
    if subs != [] {
      var n := |subs| - 1;
      var prefix := subs[..n];
      assert DistinctIds(prefix) by {
        forall j, k | 0 <= j < k < n ensures IdAt(prefix, j) != IdAt(prefix, k) {
          assert IdAt(subs, j) != IdAt(subs, k);
        }
      }
      OtherTypesKeepDistinct(prefix, t);
      var kept := OfOtherTypes(prefix, t);
      if subs[n].eventType != t {
        var r := kept + [subs[n]];
        assert OfOtherTypes(subs, t) == r;
        OfOtherTypesMembers(prefix, t);
        forall j, k | 0 <= j < k < |r| ensures IdAt(r, j) != IdAt(r, k) {
          if k < |kept| {
            assert IdAt(r, j) == IdAt(kept, j) && IdAt(r, k) == IdAt(kept, k);
          } else {
            assert r[j] in prefix && r[k] == subs[n];
            var m :| 0 <= m < n && prefix[m] == r[j];
            assert IdAt(subs, m) != IdAt(subs, n);
          }
        }
      } else {
        assert OfOtherTypes(subs, t) == kept + [] == kept;
      }
    }
  }

  /** What `createEventSubscription` did to `execution`, given the subscription it built. */
  twostate predicate Created(execution: Execution, built: Result<Subscription, EngineError>, new created: Result<Option<Subscription>, EngineError>)
    reads execution
  {
    match built
    case Err(e) =>
      && created == Err(e)
      && execution.subscriptions == old(execution.subscriptions) && execution.nextId == old(execution.nextId)
    case Ok(s) =>
      && created == Ok(Some(s.(id := old(execution.nextId))))
      && execution.subscriptions == old(execution.subscriptions) + [s.(id := old(execution.nextId))]
      && execution.nextId == old(execution.nextId) + 1
  }

  // ----------------------------------------------------------------------------
  // The declaration
  // ----------------------------------------------------------------------------

  class EventSubscriptionDeclaration {
    const eventName: Option<string>
    const eventType: Option<string>
    var async: bool
    var activityId: Option<string>
    var isStartEvent: bool
    /** The cached `isParallelMultiInstance`: `None` until first computed. */
    var parallelMultiInstance: Option<bool>

    constructor (eventName: Option<string>, eventType: Option<string>)
      ensures this.eventName == eventName && this.eventType == eventType
      ensures !async && activityId == None && !isStartEvent && parallelMultiInstance == None
    {
      this.eventName := eventName;
      this.eventType := eventType;
      async := false;
      activityId := None;
      isStartEvent := false;
      parallelMultiInstance := None;
    }

    method SetAsync(async: bool)
      modifies this`async
      ensures this.async == async
    {
      this.async := async;
    }

    /** Setting the activity id leaves an already cached answer as it is. */
    method SetActivityId(activityId: Option<string>)
      modifies this`activityId
      ensures this.activityId == activityId
    {
      this.activityId := activityId;
    }

    method SetStartEvent(isStartEvent: bool)
      modifies this`isStartEvent
      ensures this.isStartEvent == isStartEvent
    {
      this.isStartEvent := isStartEvent;
    }

    /**
     * `isParallelMultiInstance`: the first successful call looks the activity up
     * and caches the answer; every later call returns the cached answer.
     */
    method IsParallelMultiInstance(execution: Execution) returns (r: Result<bool, EngineError>)
      modifies this`parallelMultiInstance
      ensures r == Memoised(old(parallelMultiInstance), activityId, execution.activities)
      ensures old(parallelMultiInstance).Some? ==> parallelMultiInstance == old(parallelMultiInstance)
      ensures parallelMultiInstance == if r.Ok? then Some(r.value) else None
    {
      if parallelMultiInstance.None? {
        if activityId.None? {
          parallelMultiInstance := Some(false);
        } else {
          var id := activityId.value;
          if id !in execution.activities {
            return Err(NullPointer);
          }
          parallelMultiInstance := Some(execution.activities[id].parallelMultiInstance);
        }
      }
      return Ok(parallelMultiInstance.value);
    }

    /** `createEventSubscription`: builds the subscription for the event type and inserts it. */
    method CreateEventSubscription(execution: Execution) returns (r: Result<Option<Subscription>, EngineError>)
      requires execution.Valid()
      modifies execution`subscriptions, execution`nextId
      ensures execution.Valid()
      ensures Created(execution, NewSubscription(eventType, eventName, activityId, execution.activities), r)
    {
      var entityType: string;
      if eventType.None? {
        return Err(NullPointer);
      } else if eventType.value == MESSAGE {
        entityType := MESSAGE;
      } else if eventType.value == SIGNAL {
        entityType := SIGNAL;
      } else {
        return Err(UnknownEventType(eventType.value));
      }
      var activity := ConstructorDefault;
      if activityId.Some? {
        var id := activityId.value;
        activity := SetTo(if id in execution.activities then Some(execution.activities[id]) else None);
      }
      var inserted := execution.Insert(Subscription(0, entityType, eventName, activity));
      return Ok(Some(inserted));
    }

    /**
     * `createSubscription`: nothing for a start event or a parallel
     * multi-instance activity (a start event does not even consult the cache),
     * a new subscription otherwise.
     */
    method CreateSubscription(execution: Execution) returns (r: Result<Option<Subscription>, EngineError>)
      requires execution.Valid()
      modifies this`parallelMultiInstance, execution`subscriptions, execution`nextId
      ensures execution.Valid()
      ensures isStartEvent ==>
        && r == Ok(None) && parallelMultiInstance == old(parallelMultiInstance)
        && execution.subscriptions == old(execution.subscriptions) && execution.nextId == old(execution.nextId)
      ensures !isStartEvent ==>
        var answer := Memoised(old(parallelMultiInstance), activityId, execution.activities);
        && parallelMultiInstance == (if answer.Ok? then Some(answer.value) else None)
        && (answer.Err? ==> r == Err(answer.error))
        && (answer == Ok(true) ==> r == Ok(None))
        && (answer.Err? || answer == Ok(true) ==>
              execution.subscriptions == old(execution.subscriptions) && execution.nextId == old(execution.nextId))
        && (answer == Ok(false) ==> Created(execution, NewSubscription(eventType, eventName, activityId, execution.activities), r))
    {
      if isStartEvent {
        return Ok(None);
      }
      var answer := IsParallelMultiInstance(execution);
      match answer {
        case Err(e) =>
          return Err(e);
        case Ok(parallel) =>
          if parallel {
            return Ok(None);
          }
          r := CreateEventSubscription(execution);
      }
    }

    /**
     * `createSubscriptionForParallelMultiInstance`: a new subscription when the
     * cached answer is true, nothing when it is false; with no cached answer the
     * unboxing of the null `Boolean` throws.
     */
    method CreateSubscriptionForParallelMultiInstance(execution: Execution) returns (r: Result<Option<Subscription>, EngineError>)
      requires execution.Valid()
      modifies execution`subscriptions, execution`nextId
      ensures execution.Valid()
      ensures parallelMultiInstance != Some(true) ==>
        execution.subscriptions == old(execution.subscriptions) && execution.nextId == old(execution.nextId)
      ensures parallelMultiInstance == None ==> r == Err(NullPointer)
      ensures parallelMultiInstance == Some(false) ==> r == Ok(None)
      ensures parallelMultiInstance == Some(true) ==>
        Created(execution, NewSubscription(eventType, eventName, activityId, execution.activities), r)
    {
      if parallelMultiInstance.None? {
        return Err(NullPointer);
      }
      if parallelMultiInstance.value {
        r := CreateEventSubscription(execution);
      } else {
        r := Ok(None);
      }
    }

    /** The body of the leave loop for a match: the subscription is deleted, then a new one created. */
    method Renew(execution: Execution, id: nat) returns (r: Result<Option<Subscription>, EngineError>)
      requires execution.Valid()
      modifies execution`subscriptions, execution`nextId
      ensures execution.Valid()
      ensures var built := NewSubscription(eventType, eventName, activityId, execution.activities);
        && (built.Err? ==>
              && r == Err(built.error)
              && execution.subscriptions == WithoutId(old(execution.subscriptions), id)
              && execution.nextId == old(execution.nextId))
        && (built.Ok? ==>
              && r.Ok?
              && execution.subscriptions == WithoutId(old(execution.subscriptions), id) + [built.value.(id := old(execution.nextId))]
              && execution.nextId == old(execution.nextId) + 1)
    {
      execution.Delete(id);
      r := CreateEventSubscription(execution);
    }

    /**
     * `handleSequentialMultiInstanceLeave`: every subscription of the
     * execution whose type is the declaration's type is deleted and replaced by
     * a new one; the loop runs over the list as it was on entry. With an event
     * type that cannot be instantiated the first replacement throws after its
     * deletion.
     */
    method HandleSequentialMultiInstanceLeave(execution: Execution) returns (r: Result<(), EngineError>)
      requires execution.Valid()
      modifies execution`subscriptions, execution`nextId
      ensures execution.Valid()
      ensures (r, execution.subscriptions, execution.nextId)
        == Leave(old(execution.subscriptions), old(execution.nextId), eventType,
                 NewSubscription(eventType, eventName, activityId, execution.activities))
    {
      if eventType.None? {
        return Ok(());
      }
      var t := eventType.value;
      ghost var built := NewSubscription(eventType, eventName, activityId, execution.activities);
      ghost var firstId := execution.nextId;
      var listed := execution.subscriptions;
      assert Fresh(listed, firstId);
      LeaveStart(listed, t, built, firstId);
      var i := 0;
      while i < |listed|
        invariant 0 <= i <= |listed|
        invariant execution.Valid()
        invariant Leaving(listed, i, t, built, firstId, execution.subscriptions, execution.nextId)
      {
        var s := listed[i];
        ghost var before, next := execution.subscriptions, execution.nextId;
        if t == s.eventType {
          var created := Renew(execution, s.id);
          if created.Err? {
            LeaveFailed(listed, i, t, built, firstId, before);
            return Err(created.error);
          }
        }
        LeaveStep(listed, i, t, built, firstId, before, next, execution.subscriptions, execution.nextId);
        i := i + 1;
      }
      LeaveDone(listed, t, built, firstId, execution.subscriptions, execution.nextId);
      return Ok(());
    }
  }

  /**
   * The execution's list after the leave loop has handled the first `i`
   * subscriptions of `listed`: the unmatched ones handled so far, the ones still
   * to come, then one replacement per match so far.
   */
  ghost function Midway(listed: seq<Subscription>, i: nat, t: string, template: Subscription, firstId: nat): seq<Subscription>
    requires i <= |listed|
  {
    OfOtherTypes(listed[..i], t) + listed[i..] + Replacements(template, firstId, CountOfType(listed[..i], t))
  }

  /**
   * The state of the leave loop after it has handled the first `i` subscriptions
   * of `listed`: with a buildable subscription the list is `Midway` and one id was
   * used per match; otherwise no match has been met yet and nothing changed.
   */
  ghost predicate Leaving(listed: seq<Subscription>, i: nat, t: string, built: Result<Subscription, EngineError>,
                          firstId: nat, subs: seq<Subscription>, nextId: nat)
  {
    && i <= |listed|
    && (built.Ok? ==>
          && subs == Midway(listed, i, t, built.value, firstId)
          && nextId == firstId + CountOfType(listed[..i], t))
    && (built.Err? ==> CountOfType(listed[..i], t) == 0 && subs == listed && nextId == firstId)
  }

  lemma LeaveStart(listed: seq<Subscription>, t: string, built: Result<Subscription, EngineError>, firstId: nat)
    ensures Leaving(listed, 0, t, built, firstId, listed, firstId)
  {
    assert listed[..0] == [];
    assert listed[0..] == listed;
  }

  /** After the whole list has been handled, the execution holds what `Leave` says. */
  lemma LeaveDone(listed: seq<Subscription>, t: string, built: Result<Subscription, EngineError>, firstId: nat,
                  subs: seq<Subscription>, nextId: nat)
    requires Leaving(listed, |listed|, t, built, firstId, subs, nextId)
    ensures Leave(listed, firstId, Some(t), built) == (Ok(()), subs, nextId)
  {
    assert listed[..|listed|] == listed;
    assert listed[|listed|..] == [];
    if built.Ok? {
      assert subs == OfOtherTypes(listed, t) + Replacements(built.value, firstId, CountOfType(listed, t));
      if CountOfType(listed, t) == 0 {
        OnlyOtherTypes(listed, t);
        assert Replacements(built.value, firstId, 0) == [];
        assert subs == listed + [] == listed;
        assert nextId == firstId;
      }
    }
  }

  /** One step of the count: the `i`-th subscription is counted when its type is `t`. */
  lemma CountStep(listed: seq<Subscription>, i: nat, t: string)
    requires i < |listed|
    ensures CountOfType(listed[..i + 1], t) == CountOfType(listed[..i], t) + (if listed[i].eventType == t then 1 else 0)
    ensures OfOtherTypes(listed[..i + 1], t) == OfOtherTypes(listed[..i], t) + (if listed[i].eventType != t then [listed[i]] else [])
  {
    assert listed[..i + 1][..i] == listed[..i];
    assert listed[..i + 1][i] == listed[i];
  }

  /**
   * One turn of the leave loop: a subscription of another type stays where it
   * is; one of type `t` is deleted from the current list and a replacement is
   * appended under the next id.
   */
  lemma {:induction false} LeaveStep(listed: seq<Subscription>, i: nat, t: string, built: Result<Subscription, EngineError>,
                                     firstId: nat, subs: seq<Subscription>, nextId: nat,
                                     subs': seq<Subscription>, nextId': nat)
    requires i < |listed| && Fresh(listed, firstId)
    requires Leaving(listed, i, t, built, firstId, subs, nextId)
    requires listed[i].eventType != t ==> subs' == subs && nextId' == nextId
    requires listed[i].eventType == t ==>
      built.Ok? && subs' == WithoutId(subs, listed[i].id) + [built.value.(id := nextId)] && nextId' == nextId + 1
    ensures Leaving(listed, i + 1, t, built, firstId, subs', nextId')
  {
    CountStep(listed, i, t);
    if listed[i].eventType == t {
      DeleteCurrent(listed, i, t, built.value, firstId);
    } else {
      assert listed[i..] == [listed[i]] + listed[i + 1..];
    }
  }

  /**
   * With a subscription that cannot be built, the first match is deleted and
   * the failed creation ends the loop: what `Leave` says for that case.
   */
  lemma {:induction false} LeaveFailed(listed: seq<Subscription>, i: nat, t: string, built: Result<Subscription, EngineError>,
                                       firstId: nat, subs: seq<Subscription>)
    requires i < |listed| && listed[i].eventType == t && built.Err?
    requires Leaving(listed, i, t, built, firstId, subs, firstId)
    ensures Leave(listed, firstId, Some(t), built) == (Err(built.error), WithoutId(subs, listed[i].id), firstId)
  {
    FirstOfTypeAfterNone(listed, i, t);
  }

  /** The deletion step of the leave loop: the `i`-th listed subscription leaves the current list. */
  lemma {:induction false} DeleteCurrent(listed: seq<Subscription>, i: nat, t: string, template: Subscription, firstId: nat)
    requires i < |listed| && Fresh(listed, firstId)
    ensures WithoutId(Midway(listed, i, t, template, firstId), listed[i].id)
        == OfOtherTypes(listed[..i], t) + listed[i + 1..] + Replacements(template, firstId, CountOfType(listed[..i], t))
  {
    var s := listed[i];
    var kept := OfOtherTypes(listed[..i], t);
    var later := listed[i + 1..];
    var added := Replacements(template, firstId, CountOfType(listed[..i], t));
    assert listed[i..] == [s] + later;
    assert Midway(listed, i, t, template, firstId) == kept + ([s] + (later + added));
    OthersBeforeDiffer(listed, i, t);
    LaterDiffer(listed, i);
    assert IdAt(listed, i) < firstId;
    ReplacementsAbove(template, firstId, CountOfType(listed[..i], t), s.id);
    WithoutAbsentId(kept, s.id);
    WithoutAbsentId(later, s.id);
    WithoutAbsentId(added, s.id);
    WithoutIdConcat(later, added, s.id);
    var tail := later + added;
    assert WithoutId(tail, s.id) == tail;
    assert WithoutId([s] + tail, s.id) == tail by {
      assert ([s] + tail)[0] == s;
      assert ([s] + tail)[1..] == tail;
    }
    WithoutIdConcat(kept, [s] + tail, s.id);
    assert kept + tail == kept + later + added;
  }

  lemma OthersBeforeDiffer(listed: seq<Subscription>, i: nat, t: string)
    requires i < |listed| && DistinctIds(listed)
    ensures forall x | x in OfOtherTypes(listed[..i], t) :: x.id != listed[i].id
  {
    OfOtherTypesMembers(listed[..i], t);
    forall x | x in OfOtherTypes(listed[..i], t) ensures x.id != listed[i].id {
      var j :| 0 <= j < i && listed[..i][j] == x;
      assert IdAt(listed, j) != IdAt(listed, i);
    }
  }

  lemma LaterDiffer(listed: seq<Subscription>, i: nat)
    requires i < |listed| && DistinctIds(listed)
    ensures forall x | x in listed[i + 1..] :: x.id != listed[i].id
  {
    forall x | x in listed[i + 1..] ensures x.id != listed[i].id {
      var j :| 0 <= j < |listed| - i - 1 && listed[i + 1..][j] == x;
      assert IdAt(listed, i) != IdAt(listed, i + 1 + j);
    }
  }

  /** Every replacement has an id at or above `firstId`. */
  lemma ReplacementsAbove(template: Subscription, firstId: nat, n: nat, id: nat)
    requires id < firstId
    ensures forall x | x in Replacements(template, firstId, n) :: x.id != id
  {
    var added := Replacements(template, firstId, n);
    forall x | x in added ensures x.id != id {
      var k :| 0 <= k < n && added[k] == x;
    }
  }

  /** When no earlier subscription has type `t` and the `i`-th has, the `i`-th is the first of type `t`. */
  lemma {:induction false} FirstOfTypeAfterNone(listed: seq<Subscription>, i: nat, t: string)
    requires i < |listed| && CountOfType(listed[..i], t) == 0 && listed[i].eventType == t
    ensures CountOfType(listed, t) > 0 && FirstOfType(listed, t) == listed[i]
  {
    CountPrefix(listed, i, t);
    var n := |listed| - 1;
    if i < n {
      assert listed[..n][..i] == listed[..i];
      assert listed[..n][i] == listed[i];
      FirstOfTypeAfterNone(listed[..n], i, t);
    } else {
      assert listed[..n] == listed[..i];
    }
  }

  /** A prefix holding a subscription of type `t` has a positive count. */
  lemma {:induction false} CountPrefix(listed: seq<Subscription>, i: nat, t: string)
    requires i < |listed| && listed[i].eventType == t
    ensures CountOfType(listed, t) > 0
    decreases |listed|
  {
    var n := |listed| - 1;
    if i < n {
      assert listed[..n][i] == listed[i];
      CountPrefix(listed[..n], i, t);
    }
  }
}
