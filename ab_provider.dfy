/** lib/ab-testing/ab-test-provider.tsx: the client-side A/B test provider.
    On mount it gives every configured test a variant, reusing the one kept in
    local storage and otherwise drawing one by weight, stores the new map, and
    exposes `getVariant` and `trackEvent` to its children.

    `Math.random()` results are the parameter `draw`, the draw for the test at
    position `i` being `draw(i)`; weights are exact reals. The parsed value
    under "ab-test-assignments" in local storage is the field `storage`. */
module AbProvider {
  import opened Wrappers
  import opened Sequences

  /** A test with the ids of its variants, in order, and optional weights. */
  datatype ABTest = ABTest(id: string, variants: seq<string>, weights: Option<seq<real>>)

  /** `test.weights || test.variants.map(() => 1)`: one unit per variant when
      the test gives no weights. */
  function Weights(t: ABTest): (ws: seq<real>)
    ensures t.weights.None? ==> |ws| == |t.variants| && forall i :: 0 <= i < |ws| ==> ws[i] == 1.0
    ensures t.weights.Some? ==> ws == t.weights.value
  {
    if t.weights.Some? then t.weights.value else seq(|t.variants|, _ => 1.0)
  }

  /** The running `currentWeight` after the first `k` weights. */
  function Cum(ws: seq<real>, k: nat): real
    requires k <= |ws|
  {
    SumReals(ws[..k])
  }

  /** The running total once variant `j`'s weight is added. */
  function CumThrough(ws: seq<real>, j: nat): real
    requires j < |ws|
  {
    Cum(ws, j + 1)
  }

  lemma CumStep(ws: seq<real>, k: nat)
    requires k < |ws|
    ensures CumThrough(ws, k) == Cum(ws, k) + ws[k]
  {
    assert ws[..k + 1][..k] == ws[..k];
  }

  /** The first index from `i` on, below `n` and within the weights, whose
      cumulative weight reaches `random`. */
  function FirstFrom(ws: seq<real>, n: nat, random: real, i: nat): (r: Option<nat>)
    ensures r.Some? ==> i <= r.value < n && r.value < |ws| && CumThrough(ws, r.value) >= random
                        && forall j :: i <= j < r.value ==> CumThrough(ws, j) < random
    ensures r.None? ==> forall j :: i <= j < n && j < |ws| ==> CumThrough(ws, j) < random
    decreases n - i
  {
    if i >= n || i >= |ws| then None
    else if CumThrough(ws, i) >= random then Some(i)
    else FirstFrom(ws, n, random, i + 1)
  }

  /** The index the selection loop stops at: the first variant whose
      cumulative weight is at least `random`. A variant without a weight makes
      the running total NaN, so no later comparison succeeds. */
  function FirstReaching(ws: seq<real>, n: nat, random: real): (r: Option<nat>)
    ensures r.Some? ==> r.value < n && r.value < |ws| && CumThrough(ws, r.value) >= random
                        && forall j :: 0 <= j < r.value ==> CumThrough(ws, j) < random
    ensures r.None? ==> forall j :: 0 <= j < n && j < |ws| ==> CumThrough(ws, j) < random
  {
    FirstFrom(ws, n, random, 0)
  }

  /** `Math.random() * totalWeight` for the draw `u`. */
  function Scaled(t: ABTest, u: real): real {
    u * SumReals(Weights(t))
  }

  /** The variant a fresh draw `u` selects: the first reaching its scaled
      draw, else the first variant. */
  function Chosen(t: ABTest, u: real): (v: string)
    requires t.variants != []
    ensures v in t.variants
  {
    match FirstReaching(Weights(t), |t.variants|, Scaled(t, u))
    case Some(i) => t.variants[i]
    case None => t.variants[0]
  }

  /** The weighted draw of lines 58-71: `None` when the test has no variants,
      where `test.variants[0].id` throws. */
  method SelectVariant(t: ABTest, u: real) returns (selected: Option<string>)
    ensures t.variants == [] ==> selected.None?
    ensures t.variants != [] ==> selected == Some(Chosen(t, u))
  {
    var weights := Weights(t);
    var random := Scaled(t, u);
    if |t.variants| == 0 {
      return None;
    }
    var currentWeight := 0.0;
    var variant := t.variants[0];
    for i := 0 to |t.variants|
      invariant i <= |weights| ==> currentWeight == Cum(weights, i)
      invariant variant == t.variants[0]
      invariant FirstReaching(weights, |t.variants|, random) == FirstFrom(weights, |t.variants|, random, i)
    {
      if i >= |weights| {
        // `weights[i]` is undefined: the total is NaN from here on.
        break;
      }
      CumStep(weights, i);
      currentWeight := currentWeight + weights[i];
      if random <= currentWeight {
        variant := t.variants[i];
        break;
      }
    }
    selected := Some(variant);
  }

  lemma {:induction false} CumOfOnes(ws: seq<real>, k: nat)
    requires k <= |ws|
    requires forall i :: 0 <= i < |ws| ==> ws[i] == 1.0
    ensures Cum(ws, k) == k as real
  {
    if k > 0 {
      CumOfOnes(ws, k - 1);
      CumStep(ws, k - 1);
    }
  }

  /** With the default weights every variant has an equal share: the draw
      `u` in `[0, 1)` selects variant `i` exactly when `i/n < u <= (i+1)/n`
      (variant 0 also takes `u == 0`). */
  lemma UniformWeightsPickByInterval(t: ABTest, u: real)
    requires t.weights.None? && t.variants != []
    requires 0.0 <= u < 1.0
    ensures var n := |t.variants|;
      var r := FirstReaching(Weights(t), n, Scaled(t, u));
      && r.Some?
      && (r.value == 0 || r.value as real < u * n as real)
      && u * n as real <= (r.value + 1) as real
  {
    var ws, n := Weights(t), |t.variants|;
    CumOfOnes(ws, n);
    assert ws[..n] == ws;
    var random := Scaled(t, u);
    assert random == u * n as real;
    ScaledDrawBelowCount(u, n);
    assert CumThrough(ws, n - 1) >= random;
    var r := FirstReaching(ws, n, random);
    CumOfOnes(ws, r.value + 1);
    assert CumThrough(ws, r.value) == (r.value + 1) as real;
    if r.value > 0 {
      CumOfOnes(ws, r.value);
      assert CumThrough(ws, r.value - 1) == r.value as real;
    }
  }

  lemma ScaledDrawBelowCount(u: real, n: nat)
    requires 0.0 <= u < 1.0 && n > 0
    ensures u * n as real < n as real
  {
  }

  /** `storedAssignments[id]` is truthy. */
  predicate HasStored(stored: map<string, string>, id: string) {
    id in stored && stored[id] != ""
  }

  /** A test that needs a fresh draw but has no variants: the draw throws. */
  predicate Stuck(stored: map<string, string>, test: ABTest) {
    !HasStored(stored, test.id) && test.variants == []
  }

  /** One of the first `k` tests is stuck. */
  predicate ThrowsBefore(tests: seq<ABTest>, stored: map<string, string>, k: nat)
    requires k <= |tests|
  {
    exists i :: 0 <= i < k && Stuck(stored, tests[i])
  }

  /** `loadAssignments` throws before anything is set. */
  predicate Throws(tests: seq<ABTest>, stored: map<string, string>) {
    ThrowsBefore(tests, stored, |tests|)
  }

  /** `newAssignments` after the first `k` tests of the `forEach`: each test
      keeps its stored variant or draws one with `draw(i)`; `None` once a
      stuck test has thrown. */
  function Assigned(tests: seq<ABTest>, stored: map<string, string>, draw: nat -> real, k: nat)
    : Option<map<string, string>>
    requires k <= |tests|
  {
    if k == 0 then Some(map[])
    else
      match Assigned(tests, stored, draw, k - 1)
      case None => None
      case Some(prev) =>
        var test := tests[k - 1];
        if HasStored(stored, test.id) then Some(prev[test.id := stored[test.id]])
        else if test.variants == [] then None
        else Some(prev[test.id := Chosen(test, draw(k - 1))])
  }

  /** The `forEach` fails exactly when a stuck test comes up. */
  lemma {:induction false} AssignedFailsIffThrows(tests: seq<ABTest>, stored: map<string, string>, draw: nat -> real, k: nat)
    requires k <= |tests|
    ensures Assigned(tests, stored, draw, k).None? <==> ThrowsBefore(tests, stored, k)
  {
    if k > 0 {
      AssignedFailsIffThrows(tests, stored, draw, k - 1);
      if Stuck(stored, tests[k - 1]) {
        assert ThrowsBefore(tests, stored, k);
      }
      if ThrowsBefore(tests, stored, k) && !Stuck(stored, tests[k - 1]) {
        var i :| 0 <= i < k && Stuck(stored, tests[i]);
        assert ThrowsBefore(tests, stored, k - 1);
      }
    }
  }

  /** A step that does not throw sets one key on the previous map. */
  lemma AssignedStep(tests: seq<ABTest>, stored: map<string, string>, draw: nat -> real, k: nat)
    requires 0 < k <= |tests| && Assigned(tests, stored, draw, k).Some?
    ensures Assigned(tests, stored, draw, k - 1).Some?
    ensures var m := Assigned(tests, stored, draw, k).value;
      m == Assigned(tests, stored, draw, k - 1).value[tests[k - 1].id := m[tests[k - 1].id]]
  {
  }

  /** The ids of the first `k` tests. */
  function IdsBefore(tests: seq<ABTest>, k: nat): (ids: set<string>)
    requires k <= |tests|
    ensures forall id :: id in ids <==> exists i :: 0 <= i < k && tests[i].id == id
  {
    if k == 0 then {}
    else
      var ids := IdsBefore(tests, k - 1) + {tests[k - 1].id};
      assert forall id :: id in ids ==> exists i :: 0 <= i < k && tests[i].id == id;
      ids
  }

  /** The new map holds exactly the ids of the tests seen: a stored id whose
      test is gone is dropped. */
  lemma {:induction false} AssignedKeys(tests: seq<ABTest>, stored: map<string, string>, draw: nat -> real, k: nat)
    requires k <= |tests| && Assigned(tests, stored, draw, k).Some?
    ensures Assigned(tests, stored, draw, k).value.Keys == IdsBefore(tests, k)
  {
    if k > 0 {
      AssignedStep(tests, stored, draw, k);
      AssignedKeys(tests, stored, draw, k - 1);
    }
  }

  /** Every assigned id that had a stored variant keeps it, and every other
      id gets a variant of some test with that id. */
  lemma {:induction false} AssignedValues(tests: seq<ABTest>, stored: map<string, string>, draw: nat -> real, k: nat)
    requires k <= |tests| && Assigned(tests, stored, draw, k).Some?
    ensures var m := Assigned(tests, stored, draw, k).value;
      forall id :: id in m ==>
        if HasStored(stored, id) then m[id] == stored[id]
        else exists i :: 0 <= i < k && tests[i].id == id && m[id] in tests[i].variants
  {
    if k > 0 {
      AssignedValues(tests, stored, draw, k - 1);
      var prev := Assigned(tests, stored, draw, k - 1).value;
      var m := Assigned(tests, stored, draw, k).value;
      forall id | id in m && !HasStored(stored, id)
        ensures exists i :: 0 <= i < k && tests[i].id == id && m[id] in tests[i].variants
      {
        if id == tests[k - 1].id {
          assert m[id] == Chosen(tests[k - 1], draw(k - 1));
        } else {
          assert id in prev;
          var i :| 0 <= i < k - 1 && tests[i].id == id && prev[id] in tests[i].variants;
        }
      }
    }
  }

  /** One event as `trackEvent` posts it; time, URL and user agent omitted. */
  datatype TrackedEvent = TrackedEvent(testId: string, variant: string, event: string, userId: string, sessionId: string)

  /** `trackEvent(testId, event)` against `assignments`: nothing is sent when
      the test has no assigned variant; an anonymous user is named after the
      session. */
  function TrackEvent(assignments: map<string, string>, userId: Option<string>, sessionId: string,
                      testId: string, event: string): (r: Option<TrackedEvent>)
    ensures r.None? <==> !HasStored(assignments, testId)
    ensures r.Some? ==> r.value.testId == testId && r.value.event == event
                        && r.value.variant == assignments[testId] && r.value.sessionId == sessionId
    ensures r.Some? && userId.Some? && userId.value != "" ==> r.value.userId == userId.value
    ensures r.Some? && (userId.None? || userId.value == "") ==> r.value.userId == "anonymous-" + sessionId
  {
    if !HasStored(assignments, testId) then None
    else
      var user := if userId.Some? && userId.value != "" then userId.value else "anonymous-" + sessionId;
      Some(TrackedEvent(testId, assignments[testId], event, user, sessionId))
  }

  /** The impressions `loadAssignments` posts: `trackEvent` is the one of the
      render that ran the effect, so it looks the variant up in the assignments
      of that render, not in the new ones. */
  function Impressions(before: map<string, string>, userId: Option<string>, sessionId: string,
                       newIds: set<string>): (sent: set<TrackedEvent>)
    ensures forall e :: e in sent ==>
      e.testId in newIds && e.event == "impression" && HasStored(before, e.testId) && e.variant == before[e.testId]
  {
    set id | id in newIds && TrackEvent(before, userId, sessionId, id, "impression").Some?
      :: TrackEvent(before, userId, sessionId, id, "impression").value
  }

  /** On the first load the render's assignments are still `{}`, so no
      impression is ever posted for a new assignment. */
  lemma FirstLoadPostsNoImpression(userId: Option<string>, sessionId: string, newIds: set<string>)
    ensures Impressions(map[], userId, sessionId, newIds) == {}
  {
  }

  /** The ids of the first `k` tests that have no stored variant. */
  function NewIds(tests: seq<ABTest>, stored: map<string, string>, k: nat): (ids: set<string>)
    requires k <= |tests|
    ensures forall id :: id in ids ==> !HasStored(stored, id)
  {
    if k == 0 then {}
    else NewIds(tests, stored, k - 1) + (if HasStored(stored, tests[k - 1].id) then {} else {tests[k - 1].id})
  }

  /** The body of the `forEach` for one test: its stored variant, else a
      draw; `None` where the draw throws. */
  method AssignOne(test: ABTest, stored: map<string, string>, u: real) returns (variant: Option<string>)
    ensures HasStored(stored, test.id) ==> variant == Some(stored[test.id])
    ensures Stuck(stored, test) ==> variant.None?
    ensures !HasStored(stored, test.id) && test.variants != [] ==> variant == Some(Chosen(test, u))
  {
    if HasStored(stored, test.id) {
      return Some(stored[test.id]);
    }
    variant := SelectVariant(test, u);
  }

  /** The `tests.forEach` of `loadAssignments`, drawing `draw(i)` for the test
      at position `i`; `None` when it throws. Also returns the ids that had no
      stored variant. */
  method AssignTests(tests: seq<ABTest>, stored: map<string, string>, draw: nat -> real)
    returns (result: Option<map<string, string>>, newIds: set<string>)
    ensures result == Assigned(tests, stored, draw, |tests|)
    ensures result.None? <==> Throws(tests, stored)
    ensures result.Some? ==> newIds == NewIds(tests, stored, |tests|)
  {
    AssignedFailsIffThrows(tests, stored, draw, |tests|);
    var newAssignments: map<string, string> := map[];
    newIds := {};
    for i := 0 to |tests|
      invariant Assigned(tests, stored, draw, i) == Some(newAssignments)
      invariant newIds == NewIds(tests, stored, i)
    {
      var variant := AssignOne(tests[i], stored, draw(i));
      if variant.None? {
        assert Stuck(stored, tests[i]);
        return None, {};
      }
      newAssignments := newAssignments[tests[i].id := variant.value];
      if !HasStored(stored, tests[i].id) {
        newIds := newIds + {tests[i].id};
      }
    }
    result := Some(newAssignments);
  }

  /** The error `useABTest` throws outside a provider. */
  datatype ContextResult<C> = Context(value: C) | OutsideProvider(message: string)

  /** `useABTest`: the provider's context, or an error without one. */
  function UseABTest<C>(context: Option<C>): (r: ContextResult<C>)
    ensures r.OutsideProvider? <==> context.None?
    ensures r.Context? ==> r.value == context.value
    ensures r.OutsideProvider? ==> r.message == "useABTest must be used within an ABTestProvider"
  {
    if context.None? then OutsideProvider("useABTest must be used within an ABTestProvider")
    else Context(context.value)
  }

  /** `ABTestProvider`: the state one mounted provider holds. */
  class ABTestProvider {
    var assignments: map<string, string>
    var isLoading: bool
    /** The parsed "ab-test-assignments" entry of local storage. */
    var storage: map<string, string>
    const userId: Option<string>
    const sessionId: string

    constructor (userId: Option<string>, sessionId: string, storage: map<string, string>)
      ensures assignments == map[] && isLoading
      ensures this.storage == storage && this.userId == userId && this.sessionId == sessionId
    {
      this.assignments := map[];
      this.isLoading := true;
      this.storage := storage;
      this.userId := userId;
      this.sessionId := sessionId;
    }

    /** `getVariant(testId)`: `null` for a test without an assigned variant. */
    function GetVariant(testId: string): (r: Option<string>)
      reads this
      ensures r.None? <==> !HasStored(assignments, testId)
      ensures r.Some? ==> r.value == assignments[testId]
    {
      if HasStored(assignments, testId) then Some(assignments[testId]) else None
    }

    /** `loadAssignments()`: the assignments of `AssignTests` replace the
        provider's and local storage, and loading ends. Impressions for the
        tests without a stored variant go through the render's `trackEvent`,
        which still reads the assignments from before. When a test throws,
        nothing changes. */
    method LoadAssignments(tests: seq<ABTest>, draw: nat -> real) returns (sent: set<TrackedEvent>)
      modifies this
      ensures Throws(tests, old(storage)) ==> unchanged(this) && sent == {}
      ensures !Throws(tests, old(storage)) ==>
        && Assigned(tests, old(storage), draw, |tests|) == Some(assignments)
        && storage == assignments && !isLoading
        && sent == Impressions(old(assignments), userId, sessionId, NewIds(tests, old(storage), |tests|))
    {
      var newAssignments, newIds := AssignTests(tests, storage, draw);
      if newAssignments.None? {
        return {};
      }
      sent := Impressions(assignments, userId, sessionId, newIds);
      assignments := newAssignments.value;
      storage := newAssignments.value;
      isLoading := false;
    }
  }
}
