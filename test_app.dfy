/**
 * The test app of lib/aladdin/runner/test-app.js: a first-in first-out
 * queue of tests and four lists of hooks, all held by the app and changed
 * in place. Callbacks are opaque: a callback is known by its id.
 */
module TestApp {
  import opened Wrappers

  /** A test or hook callback, known only by its id. */
  type Callback = nat

  /** A queued test: its title and its callback. */
  datatype QueuedTest = QueuedTest(title: string, cb: Callback)

  /** A fresh array holding `s`, as `[].concat(list)` makes. */
  method CopyOf<T>(s: seq<T>) returns (a: array<T>)
    ensures fresh(a) && a[..] == s
  {
    a := new T[|s|](i requires 0 <= i < |s| => s[i]);
  }

  /** The object `createTestApp()` returns, over the closure's `app` record. */
  class App {
    var tests: seq<QueuedTest>
    var beforeAll: seq<Callback>
    var afterAll: seq<Callback>
    var beforeEach: seq<Callback>
    var afterEach: seq<Callback>

    /** `createTestApp()`: no tests and no hooks. */
    constructor ()
      ensures tests == [] && beforeAll == [] && afterAll == [] && beforeEach == [] && afterEach == []
    {
      tests := [];
      beforeAll := [];
      afterAll := [];
      beforeEach := [];
      afterEach := [];
    }

    /** The four hook lists are as they were. */
    twostate predicate HooksUnchanged()
      reads this
    {
      && beforeAll == old(beforeAll) && afterAll == old(afterAll)
      && beforeEach == old(beforeEach) && afterEach == old(afterEach)
    }

    /** `queueTest({title, cb})`: append to the queue and answer its new length. */
    method QueueTest(title: string, cb: Callback) returns (length: nat)
      modifies this
      ensures tests == old(tests) + [QueuedTest(title, cb)]
      ensures length == |tests| == |old(tests)| + 1
      ensures HooksUnchanged()
    {
      tests := tests + [QueuedTest(title, cb)];
      length := |tests|;
    }

    /** `popTest()`: take the oldest queued test off the front; `undefined` on an empty queue. */
    method PopTest() returns (test: Option<QueuedTest>)
      modifies this
      ensures old(tests) == [] ==> test.None? && tests == []
      ensures old(tests) != [] ==> test == Some(old(tests)[0]) && tests == old(tests)[1..]
      ensures |tests| == if old(tests) == [] then 0 else |old(tests)| - 1
      ensures HooksUnchanged()
    {
      if tests == [] {
        return None;
      }
      test := Some(tests[0]);
      tests := tests[1..];
    }

    /** `getTests()`: a copy of the queue. */
    method GetTests() returns (copy: array<QueuedTest>)
      ensures fresh(copy) && copy[..] == tests
    {
      copy := CopyOf(tests);
    }

    /** `getNumTests()`: the queue's length, which `QueueTest` raises and `PopTest` lowers by one. */
    method GetNumTests() returns (n: nat)
      ensures n == |tests|
    {
      n := |tests|;
    }

    /** `queueBeforeAllHook(cb)` */
    method QueueBeforeAllHook(cb: Callback) returns (length: nat)
      modifies this
      ensures beforeAll == old(beforeAll) + [cb] && length == |beforeAll|
      ensures tests == old(tests) && afterAll == old(afterAll)
      ensures beforeEach == old(beforeEach) && afterEach == old(afterEach)
    {
      beforeAll := beforeAll + [cb];
      length := |beforeAll|;
    }

    /** `queueBeforeEachHook(cb)` */
    method QueueBeforeEachHook(cb: Callback) returns (length: nat)
      modifies this
      ensures beforeEach == old(beforeEach) + [cb] && length == |beforeEach|
      ensures tests == old(tests) && beforeAll == old(beforeAll)
      ensures afterAll == old(afterAll) && afterEach == old(afterEach)
    {
      beforeEach := beforeEach + [cb];
      length := |beforeEach|;
    }

    /** `queueAfterAllHook(cb)` */
    method QueueAfterAllHook(cb: Callback) returns (length: nat)
      modifies this
      ensures afterAll == old(afterAll) + [cb] && length == |afterAll|
      ensures tests == old(tests) && beforeAll == old(beforeAll)
      ensures beforeEach == old(beforeEach) && afterEach == old(afterEach)
    {
      afterAll := afterAll + [cb];
      length := |afterAll|;
    }

    /** `queueAfterEachHook(cb)` */
    method QueueAfterEachHook(cb: Callback) returns (length: nat)
      modifies this
      ensures afterEach == old(afterEach) + [cb] && length == |afterEach|
      ensures tests == old(tests) && beforeAll == old(beforeAll)
      ensures afterAll == old(afterAll) && beforeEach == old(beforeEach)
    {
      afterEach := afterEach + [cb];
      length := |afterEach|;
    }

    /** `getBeforeAllHooks()`: a copy of the list. */
    method GetBeforeAllHooks() returns (copy: array<Callback>)
      ensures fresh(copy) && copy[..] == beforeAll
    {
      copy := CopyOf(beforeAll);
    }

    /** `getBeforeEachHooks()`: a copy of the list. */
    method GetBeforeEachHooks() returns (copy: array<Callback>)
      ensures fresh(copy) && copy[..] == beforeEach
    {
      copy := CopyOf(beforeEach);
    }

    /** `getAfterAllHooks()`: a copy of the list. */
    method GetAfterAllHooks() returns (copy: array<Callback>)
      ensures fresh(copy) && copy[..] == afterAll
    {
      copy := CopyOf(afterAll);
    }

    /** `getAfterEachHooks()`: a copy of the list. */
    method GetAfterEachHooks() returns (copy: array<Callback>)
      ensures fresh(copy) && copy[..] == afterEach
    {
      copy := CopyOf(afterEach);
    }

    /** `resetBeforeAfterHooks()`: empty the four hook lists; the queue stays. */
    method ResetBeforeAfterHooks()
      modifies this
      ensures beforeAll == [] && afterAll == [] && beforeEach == [] && afterEach == []
      ensures tests == old(tests)
    {
      beforeAll := [];
      afterAll := [];
      beforeEach := [];
      afterEach := [];
    }
  }

  /**
   * The queue is first in, first out: after queueing a test behind a
   * non-empty queue, popping takes the old front and keeps the new test last.
   */
  method QueueThenPop(app: App, title: string, cb: Callback) returns (popped: Option<QueuedTest>)
    requires app.tests != []
    modifies app
    ensures popped == Some(old(app.tests)[0])
    ensures app.tests == old(app.tests)[1..] + [QueuedTest(title, cb)]
  {
    var _ := app.QueueTest(title, cb);
    popped := app.PopTest();
  }

  /** A copy handed out is the app's own list no longer: writing into it leaves the queue as it was. */
  method CopyIsDetached(app: App, t: QueuedTest)
    requires app.tests != []
    modifies app
    ensures app.tests == old(app.tests)
  {
    var copy := app.GetTests();
    copy[0] := t;
  }
}
