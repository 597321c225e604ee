/**
 * The test runner of lib/aladdin/runner/runnable.js: the hook runners, the
 * per-test sequence and the run of a whole queue. A callback either returns
 * or throws, and it may do one on one invocation and the other on the next;
 * which invocations throw is the parameter `fails`. A run is described by
 * the trace of the callbacks it invokes and the results it reports, and by
 * whether it completes or rejects.
 */
module Runnable {
  import opened TestApp

  /** What a run shows: a callback invoked, or a test reported passed or failed. */
  datatype Event = Call(cb: Callback) | Passed(title: string) | Failed(title: string)

  /** The hooks a runner invoked, and whether none of them threw. */
  datatype HookRun = HookRun(ran: seq<Callback>, ok: bool)

  /** What a single test, or a whole run, shows: its trace, how many tests it took off the queue, and whether it completed. */
  datatype Stage = Stage(events: seq<Event>, popped: nat, ok: bool)

  /** When a callback is invoked: in the `beforeAll` hooks, for the queued test at a position, or in the `afterAll` hooks. */
  datatype Round = BeforeAll | ForTest(index: nat) | AfterAll

  /** One invocation: a callback and the round it is invoked in. */
  datatype Invocation = Invocation(cb: Callback, round: Round)

  /** The callback throws when it is invoked in round `at`. */
  predicate Throws(cb: Callback, at: Round, fails: set<Invocation>) {
    Invocation(cb, at) in fails
  }

  /** No callback in `cbs` throws in round `at`. */
  predicate AllPass(cbs: seq<Callback>, fails: set<Invocation>, at: Round) {
    forall i :: 0 <= i < |cbs| ==> !Throws(cbs[i], at, fails)
  }

  /** `s` last to first. */
  function Reverse<T>(s: seq<T>): (r: seq<T>)
    ensures |r| == |s|
    ensures forall i :: 0 <= i < |s| ==> r[i] == s[|s| - 1 - i]
  {
    if s == [] then [] else [s[|s| - 1]] + Reverse(s[..|s| - 1])
  }

  /** The trace of invoking `cbs` in order. */
  function Calls(cbs: seq<Callback>): (es: seq<Event>)
    ensures |es| == |cbs|
    ensures forall i :: 0 <= i < |cbs| ==> es[i] == Call(cbs[i])
  {
    if cbs == [] then [] else Calls(cbs[..|cbs| - 1]) + [Call(cbs[|cbs| - 1])]
  }

  // ---------------------------------------------------------------------------
  // Hooks

  /** Awaiting `hooks` one after another in round `at`: the first that throws ends the run. */
  function RunHooks(hooks: seq<Callback>, fails: set<Invocation>, at: Round): HookRun
    decreases |hooks|
  {
    if hooks == [] then HookRun([], true)
    else
      var r := RunHooks(hooks[..|hooks| - 1], fails, at);
      if !r.ok then r
      else HookRun(r.ran + [hooks[|hooks| - 1]], !Throws(hooks[|hooks| - 1], at, fails))
  }

  /** The hooks invoked are a prefix of `hooks`, in their order; all of them when none throws. */
  lemma {:induction false} RunHooksPrefix(hooks: seq<Callback>, fails: set<Invocation>, at: Round)
    ensures var r := RunHooks(hooks, fails, at);
      |r.ran| <= |hooks| && r.ran == hooks[..|r.ran|] && (r.ok ==> r.ran == hooks)
  {
    if hooks != [] {
      var init := hooks[..|hooks| - 1];
      RunHooksPrefix(init, fails, at);
      var r0 := RunHooks(init, fails, at);
      if r0.ok {
        assert init + [hooks[|hooks| - 1]] == hooks;
      } else {
        assert hooks[..|r0.ran|] == init[..|r0.ran|];
      }
    }
  }

  /** Every hook invoked before the last one returned; the run completes exactly when no hook throws, and otherwise the last one invoked threw. */
  lemma {:induction false} RunHooksFailure(hooks: seq<Callback>, fails: set<Invocation>, at: Round)
    ensures var r := RunHooks(hooks, fails, at);
      && (forall i :: 0 <= i < |r.ran| - 1 ==> !Throws(r.ran[i], at, fails))
      && (r.ok ==> forall i :: 0 <= i < |r.ran| ==> !Throws(r.ran[i], at, fails))
      && (!r.ok ==> r.ran != [] && Throws(r.ran[|r.ran| - 1], at, fails))
  {
    if hooks != [] {
      RunHooksFailure(hooks[..|hooks| - 1], fails, at);
    }
  }

  /**
   * The hooks run in the order given, as a prefix of it: every hook before
   * the last one invoked returned; the run completes exactly when no hook
   * throws, and then every hook ran; otherwise the last one invoked threw.
   */
  lemma RunHooksSpec(hooks: seq<Callback>, fails: set<Invocation>, at: Round)
    ensures var r := RunHooks(hooks, fails, at);
      && |r.ran| <= |hooks| && r.ran == hooks[..|r.ran|]
      && (forall i :: 0 <= i < |r.ran| - 1 ==> !Throws(r.ran[i], at, fails))
      && (r.ok <==> AllPass(hooks, fails, at))
      && (r.ok ==> r.ran == hooks)
      && (!r.ok ==> r.ran != [] && Throws(r.ran[|r.ran| - 1], at, fails))
  {
    RunHooksPrefix(hooks, fails, at);
    RunHooksFailure(hooks, fails, at);
    var r := RunHooks(hooks, fails, at);
    if !r.ok {
      assert hooks[|r.ran| - 1] == r.ran[|r.ran| - 1];
    }
  }

  /** Once a prefix of the hooks has thrown, the rest never run. */
  lemma {:induction false} RunHooksStops(hooks: seq<Callback>, fails: set<Invocation>, at: Round, i: nat)
    requires i <= |hooks|
    requires !RunHooks(hooks[..i], fails, at).ok
    ensures RunHooks(hooks, fails, at) == RunHooks(hooks[..i], fails, at)
    decreases |hooks|
  {
    if i < |hooks| {
      var init := hooks[..|hooks| - 1];
      assert init[..i] == hooks[..i];
      RunHooksStops(init, fails, at, i);
    } else {
      assert hooks[..i] == hooks;
    }
  }

  /** The hooks of `hooks` in order (`beforeAll` and `beforeEach`): `for (i = 0; i < length; ++i)`. */
  method RunForward(hooks: array<Callback>, fails: set<Invocation>, at: Round) returns (ran: seq<Callback>, ok: bool)
    ensures ran == RunHooks(hooks[..], fails, at).ran
    ensures ok == RunHooks(hooks[..], fails, at).ok
  {
    ran := [];
    ok := true;
    var i := 0;
    while i < hooks.Length && ok
      invariant 0 <= i <= hooks.Length
      invariant ran == RunHooks(hooks[..i], fails, at).ran
      invariant ok == RunHooks(hooks[..i], fails, at).ok
    {
      assert hooks[..i + 1][..i] == hooks[..i];
      ran := ran + [hooks[i]];
      ok := !Throws(hooks[i], at, fails);
      i := i + 1;
    }
    if ok {
      assert hooks[..i] == hooks[..];
    } else {
      RunHooksStops(hooks[..], fails, at, i);
      assert hooks[..][..i] == hooks[..i];
    }
  }

  /** The hooks of `hooks` last to first (`afterAll` and `afterEach`): `for (i = length - 1; i >= 0; --i)`. */
  method RunBackward(hooks: array<Callback>, fails: set<Invocation>, at: Round) returns (ran: seq<Callback>, ok: bool)
    ensures ran == RunHooks(Reverse(hooks[..]), fails, at).ran
    ensures ok == RunHooks(Reverse(hooks[..]), fails, at).ok
  {
    ghost var order := Reverse(hooks[..]);
    ran := [];
    ok := true;
    var i: int := hooks.Length - 1;
    while i >= 0 && ok
      invariant -1 <= i < hooks.Length
      invariant ran == RunHooks(order[..hooks.Length - 1 - i], fails, at).ran
      invariant ok == RunHooks(order[..hooks.Length - 1 - i], fails, at).ok
    {
      ghost var done := hooks.Length - 1 - i;
      assert order[..done + 1][..done] == order[..done];
      assert order[done] == hooks[i];
      ran := ran + [hooks[i]];
      ok := !Throws(hooks[i], at, fails);
      i := i - 1;
    }
    if ok {
      assert order[..hooks.Length - 1 - i] == order;
    } else {
      RunHooksStops(order, fails, at, hooks.Length - 1 - i);
    }
  }

  /** `createBeforeAllHooksRunner(app)()` */
  method RunBeforeAllHooks(app: App, fails: set<Invocation>) returns (ran: seq<Callback>, ok: bool)
    ensures ran == RunHooks(app.beforeAll, fails, BeforeAll).ran && ok == RunHooks(app.beforeAll, fails, BeforeAll).ok
  {
    var hooks := app.GetBeforeAllHooks();
    ran, ok := RunForward(hooks, fails, BeforeAll);
  }

  /** `createBeforeEachHooksRunner(app)()`, for the queued test at position `n`. */
  method RunBeforeEachHooks(app: App, fails: set<Invocation>, n: nat) returns (ran: seq<Callback>, ok: bool)
    ensures ran == RunHooks(app.beforeEach, fails, ForTest(n)).ran && ok == RunHooks(app.beforeEach, fails, ForTest(n)).ok
  {
    var hooks := app.GetBeforeEachHooks();
    ran, ok := RunForward(hooks, fails, ForTest(n));
  }

  /** `createAfterAllHooksRunner(app)()` */
  method RunAfterAllHooks(app: App, fails: set<Invocation>) returns (ran: seq<Callback>, ok: bool)
    ensures ran == RunHooks(Reverse(app.afterAll), fails, AfterAll).ran && ok == RunHooks(Reverse(app.afterAll), fails, AfterAll).ok
  {
    var hooks := app.GetAfterAllHooks();
    ran, ok := RunBackward(hooks, fails, AfterAll);
  }

  /** `createAfterEachHooksRunner(app)()`, for the queued test at position `n`. */
  method RunAfterEachHooks(app: App, fails: set<Invocation>, n: nat) returns (ran: seq<Callback>, ok: bool)
    ensures ran == RunHooks(Reverse(app.afterEach), fails, ForTest(n)).ran
    ensures ok == RunHooks(Reverse(app.afterEach), fails, ForTest(n)).ok
  {
    var hooks := app.GetAfterEachHooks();
    ran, ok := RunBackward(hooks, fails, ForTest(n));
  }

  // ---------------------------------------------------------------------------
  // One test

  /**
   * `createRunner(app)(test)` for the queued test at position `n`: the
   * `beforeEach` hooks and then the callback inside the `try`, the report,
   * then the `afterEach` hooks outside it, whose failure rejects.
   */
  function TestRun(test: QueuedTest, n: nat, beforeEach: seq<Callback>, afterEach: seq<Callback>, fails: set<Invocation>): Stage {
    var before := RunHooks(beforeEach, fails, ForTest(n));
    var passed := before.ok && !Throws(test.cb, ForTest(n), fails);
    var after := RunHooks(Reverse(afterEach), fails, ForTest(n));
    Stage(
      Calls(before.ran) + (if before.ok then [Call(test.cb)] else [])
        + [if passed then Passed(test.title) else Failed(test.title)] + Calls(after.ran),
      1, after.ok)
  }

  /** The runner for the queued test at position `n`, on the app's hook lists. */
  method RunTest(app: App, test: QueuedTest, n: nat, fails: set<Invocation>) returns (events: seq<Event>, ok: bool)
    ensures events == TestRun(test, n, app.beforeEach, app.afterEach, fails).events
    ensures ok == TestRun(test, n, app.beforeEach, app.afterEach, fails).ok
  {
    var before, beforeOk := RunBeforeEachHooks(app, fails, n);
    events := Calls(before);
    var passed := false;
    if beforeOk {
      events := events + [Call(test.cb)];
      passed := !Throws(test.cb, ForTest(n), fails);
    }
    events := events + [if passed then Passed(test.title) else Failed(test.title)];
    var after, afterOk := RunAfterEachHooks(app, fails, n);
    events := events + Calls(after);
    ok := afterOk;
  }

  /** Reversal keeps which callbacks there are, so it keeps whether any of them throws. */
  lemma ReverseAllPass(cbs: seq<Callback>, fails: set<Invocation>, at: Round)
    ensures AllPass(Reverse(cbs), fails, at) <==> AllPass(cbs, fails, at)
  {
    var r := Reverse(cbs);
    if AllPass(r, fails, at) {
      forall i | 0 <= i < |cbs| ensures !Throws(cbs[i], at, fails) {
        assert r[|cbs| - 1 - i] == cbs[i];
      }
    }
  }

  /** Nothing invoked for the queued test at position `n` throws: its `beforeEach` hooks, its callback, its `afterEach` hooks. */
  predicate Clean(test: QueuedTest, n: nat, beforeEach: seq<Callback>, afterEach: seq<Callback>, fails: set<Invocation>) {
    AllPass(beforeEach, fails, ForTest(n)) && AllPass(afterEach, fails, ForTest(n)) && !Throws(test.cb, ForTest(n), fails)
  }

  /** When nothing throws, a test runs all `beforeEach` hooks in order, its callback, then all `afterEach` hooks last to first, and passes. */
  lemma TestRunAllPass(test: QueuedTest, n: nat, beforeEach: seq<Callback>, afterEach: seq<Callback>, fails: set<Invocation>)
    requires Clean(test, n, beforeEach, afterEach, fails)
    ensures TestRun(test, n, beforeEach, afterEach, fails) ==
      Stage(Calls(beforeEach) + [Call(test.cb), Passed(test.title)] + Calls(Reverse(afterEach)), 1, true)
  {
    RunHooksSpec(beforeEach, fails, ForTest(n));
    RunHooksSpec(Reverse(afterEach), fails, ForTest(n));
    ReverseAllPass(afterEach, fails, ForTest(n));
  }

  /**
   * A throwing `beforeEach` hook ends the `beforeEach` hooks and skips the
   * callback; the test is reported failed, and the `afterEach` hooks still
   * all run, so the run goes on.
   */
  lemma TestRunBeforeEachFails(test: QueuedTest, n: nat, beforeEach: seq<Callback>, afterEach: seq<Callback>, fails: set<Invocation>)
    requires !AllPass(beforeEach, fails, ForTest(n)) && AllPass(afterEach, fails, ForTest(n))
    ensures var k := |RunHooks(beforeEach, fails, ForTest(n)).ran|;
      && 0 < k <= |beforeEach| && Throws(beforeEach[k - 1], ForTest(n), fails)
      && TestRun(test, n, beforeEach, afterEach, fails) ==
           Stage(Calls(beforeEach[..k]) + [Failed(test.title)] + Calls(Reverse(afterEach)), 1, true)
  {
    RunHooksSpec(beforeEach, fails, ForTest(n));
    RunHooksSpec(Reverse(afterEach), fails, ForTest(n));
    ReverseAllPass(afterEach, fails, ForTest(n));
  }

  /** A throwing callback is reported failed; the `afterEach` hooks still all run and the run goes on. */
  lemma TestRunCallbackFails(test: QueuedTest, n: nat, beforeEach: seq<Callback>, afterEach: seq<Callback>, fails: set<Invocation>)
    requires AllPass(beforeEach, fails, ForTest(n)) && AllPass(afterEach, fails, ForTest(n))
    requires Throws(test.cb, ForTest(n), fails)
    ensures TestRun(test, n, beforeEach, afterEach, fails) ==
      Stage(Calls(beforeEach) + [Call(test.cb), Failed(test.title)] + Calls(Reverse(afterEach)), 1, true)
  {
    RunHooksSpec(beforeEach, fails, ForTest(n));
    RunHooksSpec(Reverse(afterEach), fails, ForTest(n));
    ReverseAllPass(afterEach, fails, ForTest(n));
  }

  /** Whether a test lets the run go on depends only on its own invocations of the `afterEach` hooks. */
  lemma TestRunGoesOn(test: QueuedTest, n: nat, beforeEach: seq<Callback>, afterEach: seq<Callback>, fails: set<Invocation>)
    ensures TestRun(test, n, beforeEach, afterEach, fails).ok <==> AllPass(afterEach, fails, ForTest(n))
  {
    RunHooksSpec(Reverse(afterEach), fails, ForTest(n));
    ReverseAllPass(afterEach, fails, ForTest(n));
  }

  // ---------------------------------------------------------------------------
  // A whole run

  /** Running the queued `tests` one after another, each at its position: the first test that rejects ends the run. */
  function RunQueued(tests: seq<QueuedTest>, beforeEach: seq<Callback>, afterEach: seq<Callback>, fails: set<Invocation>): (r: Stage)
    ensures r.popped <= |tests|
    decreases |tests|
  {
    if tests == [] then Stage([], 0, true)
    else
      var r := RunQueued(tests[..|tests| - 1], beforeEach, afterEach, fails);
      if !r.ok then r
      else
        var t := TestRun(tests[|tests| - 1], |tests| - 1, beforeEach, afterEach, fails);
        Stage(r.events + t.events, r.popped + 1, t.ok)
  }

  /** Once a test has rejected, no later test runs. */
  lemma {:induction false} RunQueuedStops(tests: seq<QueuedTest>, beforeEach: seq<Callback>, afterEach: seq<Callback>,
                                          fails: set<Invocation>, i: nat)
    requires i <= |tests|
    requires !RunQueued(tests[..i], beforeEach, afterEach, fails).ok
    ensures RunQueued(tests, beforeEach, afterEach, fails) == RunQueued(tests[..i], beforeEach, afterEach, fails)
    decreases |tests|
  {
    if i < |tests| {
      var init := tests[..|tests| - 1];
      assert init[..i] == tests[..i];
      RunQueuedStops(init, beforeEach, afterEach, fails, i);
    } else {
      assert tests[..i] == tests;
    }
  }

  /**
   * The queued tests run one after another until one whose `afterEach` hooks
   * throw: the run completes exactly when no test's `afterEach` hooks throw,
   * and then every test was taken off the queue; otherwise the tests taken
   * are those up to and including the first one whose `afterEach` hooks threw.
   */
  lemma {:induction false} RunQueuedSpec(tests: seq<QueuedTest>, beforeEach: seq<Callback>, afterEach: seq<Callback>,
                                         fails: set<Invocation>)
    ensures var r := RunQueued(tests, beforeEach, afterEach, fails);
      && (r.ok <==> forall n :: 0 <= n < |tests| ==> AllPass(afterEach, fails, ForTest(n)))
      && (r.ok ==> r.popped == |tests|)
      && (!r.ok ==> 0 < r.popped && !AllPass(afterEach, fails, ForTest(r.popped - 1)))
      && (!r.ok ==> forall n :: 0 <= n < r.popped - 1 ==> AllPass(afterEach, fails, ForTest(n)))
    decreases |tests|
  {
    if tests != [] {
      var init := tests[..|tests| - 1];
      RunQueuedSpec(init, beforeEach, afterEach, fails);
      TestRunGoesOn(tests[|tests| - 1], |tests| - 1, beforeEach, afterEach, fails);
    }
  }

  /** What a run of `tests` shows when nothing throws: each test's own sequence, in queue order. */
  function PassingTrace(tests: seq<QueuedTest>, beforeEach: seq<Callback>, afterEach: seq<Callback>): seq<Event>
    decreases |tests|
  {
    if tests == [] then []
    else
      var t := tests[|tests| - 1];
      PassingTrace(tests[..|tests| - 1], beforeEach, afterEach)
        + Calls(beforeEach) + [Call(t.cb), Passed(t.title)] + Calls(Reverse(afterEach))
  }

  lemma {:induction false} RunQueuedAllPass(tests: seq<QueuedTest>, beforeEach: seq<Callback>, afterEach: seq<Callback>,
                                            fails: set<Invocation>)
    requires forall n :: 0 <= n < |tests| ==> Clean(tests[n], n, beforeEach, afterEach, fails)
    ensures RunQueued(tests, beforeEach, afterEach, fails) == Stage(PassingTrace(tests, beforeEach, afterEach), |tests|, true)
    decreases |tests|
  {
    if tests != [] {
      var init, last := tests[..|tests| - 1], |tests| - 1;
      forall n | 0 <= n < |init| ensures Clean(init[n], n, beforeEach, afterEach, fails) {
        assert init[n] == tests[n];
      }
      RunQueuedAllPass(init, beforeEach, afterEach, fails);
      assert Clean(tests[last], last, beforeEach, afterEach, fails);
      TestRunAllPass(tests[last], last, beforeEach, afterEach, fails);
      assert PassingTrace(tests, beforeEach, afterEach) == PassingTrace(init, beforeEach, afterEach)
        + TestRun(tests[last], last, beforeEach, afterEach, fails).events;
    }
  }

  /**
   * `createTestsRunner(app)()`: the `beforeAll` hooks, then as many tests as
   * were queued when they finished, then the `afterAll` hooks; anything that
   * escapes a test's `try` rejects the whole run.
   */
  function RunSuite(beforeAll: seq<Callback>, afterAll: seq<Callback>, beforeEach: seq<Callback>, afterEach: seq<Callback>,
                    tests: seq<QueuedTest>, fails: set<Invocation>): (r: Stage)
    ensures r.popped <= |tests|
  {
    var before := RunHooks(beforeAll, fails, BeforeAll);
    if !before.ok then Stage(Calls(before.ran), 0, false)
    else
      var body := RunQueued(tests, beforeEach, afterEach, fails);
      if !body.ok then Stage(Calls(before.ran) + body.events, body.popped, false)
      else
        var after := RunHooks(Reverse(afterAll), fails, AfterAll);
        Stage(Calls(before.ran) + body.events + Calls(after.ran), body.popped, after.ok)
  }

  /** The loop of `createTestsRunner`: pop and run as many tests as were queued when it started. */
  method RunQueue(app: App, fails: set<Invocation>) returns (events: seq<Event>, ok: bool)
    modifies app
    ensures var r := RunQueued(old(app.tests), app.beforeEach, app.afterEach, fails);
      events == r.events && ok == r.ok && app.tests == old(app.tests)[r.popped..]
    ensures app.beforeAll == old(app.beforeAll) && app.afterAll == old(app.afterAll)
    ensures app.beforeEach == old(app.beforeEach) && app.afterEach == old(app.afterEach)
  {
    var numTests := app.GetNumTests();
    ghost var queue := app.tests;
    events := [];
    ok := true;
    var i := 0;
    while i < numTests && ok
      invariant 0 <= i <= numTests == |queue|
      invariant app.tests == queue[i..]
      invariant app.beforeAll == old(app.beforeAll) && app.afterAll == old(app.afterAll)
      invariant app.beforeEach == old(app.beforeEach) && app.afterEach == old(app.afterEach)
      invariant events == RunQueued(queue[..i], app.beforeEach, app.afterEach, fails).events
      invariant ok == RunQueued(queue[..i], app.beforeEach, app.afterEach, fails).ok
      invariant i == RunQueued(queue[..i], app.beforeEach, app.afterEach, fails).popped
    {
      assert queue[..i + 1][..i] == queue[..i];
      var test := app.PopTest();
      var testEvents, testOk := RunTest(app, test.value, i, fails);
      events := events + testEvents;
      ok := testOk;
      i := i + 1;
    }
    if ok {
      assert queue[..i] == queue;
    } else {
      RunQueuedStops(queue, app.beforeEach, app.afterEach, fails, i);
    }
  }

  /** The runner on the app: it takes the tests it runs off the app's queue and leaves the hooks alone. */
  method RunTests(app: App, fails: set<Invocation>) returns (events: seq<Event>, ok: bool)
    modifies app
    ensures var r := RunSuite(old(app.beforeAll), old(app.afterAll), old(app.beforeEach), old(app.afterEach), old(app.tests), fails);
      && events == r.events && ok == r.ok
      && app.tests == old(app.tests)[r.popped..]
    ensures app.beforeAll == old(app.beforeAll) && app.afterAll == old(app.afterAll)
    ensures app.beforeEach == old(app.beforeEach) && app.afterEach == old(app.afterEach)
  {
    var before, beforeOk := RunBeforeAllHooks(app, fails);
    events := Calls(before);
    if !beforeOk {
      return events, false;
    }
    var testEvents, testsOk := RunQueue(app, fails);
    events := events + testEvents;
    if !testsOk {
      return events, false;
    }
    var after, afterOk := RunAfterAllHooks(app, fails);
    events := events + Calls(after);
    ok := afterOk;
  }

  /**
   * When nothing throws, a run is: every `beforeAll` hook in order, each
   * queued test's sequence in queue order, every `afterAll` hook last to
   * first; it completes and empties the queue.
   */
  lemma RunSuiteAllPass(beforeAll: seq<Callback>, afterAll: seq<Callback>, beforeEach: seq<Callback>, afterEach: seq<Callback>,
                        tests: seq<QueuedTest>, fails: set<Invocation>)
    requires AllPass(beforeAll, fails, BeforeAll) && AllPass(afterAll, fails, AfterAll)
    requires forall n :: 0 <= n < |tests| ==> Clean(tests[n], n, beforeEach, afterEach, fails)
    ensures RunSuite(beforeAll, afterAll, beforeEach, afterEach, tests, fails) ==
      Stage(Calls(beforeAll) + PassingTrace(tests, beforeEach, afterEach) + Calls(Reverse(afterAll)), |tests|, true)
  {
    RunHooksSpec(beforeAll, fails, BeforeAll);
    RunHooksSpec(Reverse(afterAll), fails, AfterAll);
    ReverseAllPass(afterAll, fails, AfterAll);
    RunQueuedAllPass(tests, beforeEach, afterEach, fails);
  }

  /** A throwing `beforeAll` hook rejects the run before any test is taken off the queue. */
  lemma RunSuiteBeforeAllFails(beforeAll: seq<Callback>, afterAll: seq<Callback>, beforeEach: seq<Callback>,
                               afterEach: seq<Callback>, tests: seq<QueuedTest>, fails: set<Invocation>)
    requires !AllPass(beforeAll, fails, BeforeAll)
    ensures var r := RunSuite(beforeAll, afterAll, beforeEach, afterEach, tests, fails);
      !r.ok && r.popped == 0 && r.events == Calls(RunHooks(beforeAll, fails, BeforeAll).ran)
  {
    RunHooksSpec(beforeAll, fails, BeforeAll);
  }

  /**
   * When the `afterEach` hooks first throw for the test at position `k`, the
   * queue's run is the run of the tests before it followed by that test's
   * sequence, it takes `k + 1` tests off the queue, and it rejects.
   */
  lemma RunQueuedFirstRejects(tests: seq<QueuedTest>, k: nat, beforeEach: seq<Callback>, afterEach: seq<Callback>,
                              fails: set<Invocation>)
    requires k < |tests| && !AllPass(afterEach, fails, ForTest(k))
    requires forall n :: 0 <= n < k ==> AllPass(afterEach, fails, ForTest(n))
    ensures RunQueued(tests, beforeEach, afterEach, fails) ==
      Stage(RunQueued(tests[..k], beforeEach, afterEach, fails).events
              + TestRun(tests[k], k, beforeEach, afterEach, fails).events, k + 1, false)
  {
    var upTo := tests[..k + 1];
    assert upTo[..k] == tests[..k] && upTo[k] == tests[k];
    RunQueuedSpec(tests[..k], beforeEach, afterEach, fails);
    TestRunGoesOn(tests[k], k, beforeEach, afterEach, fails);
    RunQueuedStops(tests, beforeEach, afterEach, fails, k + 1);
  }

  /**
   * When the `afterEach` hooks first throw for the test at position `k`, the
   * run rejects after taking `k + 1` tests off the queue, and `afterAll`
   * never runs.
   */
  lemma RunSuiteAfterEachFails(beforeAll: seq<Callback>, afterAll: seq<Callback>, beforeEach: seq<Callback>,
                               afterEach: seq<Callback>, tests: seq<QueuedTest>, k: nat, fails: set<Invocation>)
    requires AllPass(beforeAll, fails, BeforeAll)
    requires k < |tests| && !AllPass(afterEach, fails, ForTest(k))
    requires forall n :: 0 <= n < k ==> AllPass(afterEach, fails, ForTest(n))
    ensures var r := RunSuite(beforeAll, afterAll, beforeEach, afterEach, tests, fails);
      && !r.ok && r.popped == k + 1
      && r.events == Calls(beforeAll) + RunQueued(tests[..k], beforeEach, afterEach, fails).events
                       + TestRun(tests[k], k, beforeEach, afterEach, fails).events
  {
    RunHooksSpec(beforeAll, fails, BeforeAll);
    RunQueuedFirstRejects(tests, k, beforeEach, afterEach, fails);
  }

  /**
   * Otherwise every queued test runs, failing callbacks included, and the
   * run completes exactly when no `afterAll` hook throws.
   */
  lemma RunSuiteRunsAll(beforeAll: seq<Callback>, afterAll: seq<Callback>, beforeEach: seq<Callback>,
                        afterEach: seq<Callback>, tests: seq<QueuedTest>, fails: set<Invocation>)
    requires AllPass(beforeAll, fails, BeforeAll)
    requires forall n :: 0 <= n < |tests| ==> AllPass(afterEach, fails, ForTest(n))
    ensures var r := RunSuite(beforeAll, afterAll, beforeEach, afterEach, tests, fails);
      r.popped == |tests| && (r.ok <==> AllPass(afterAll, fails, AfterAll))
  {
    RunHooksSpec(beforeAll, fails, BeforeAll);
    RunHooksSpec(Reverse(afterAll), fails, AfterAll);
    ReverseAllPass(afterAll, fails, AfterAll);
    RunQueuedSpec(tests, beforeEach, afterEach, fails);
  }
}
