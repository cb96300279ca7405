/**
 * The tournament reducer (`Judgo`): a human-judged selection process over a
 * tree of tie-groups. Each decision combines `root` with `next_node`; the
 * next challenger is then drawn from `documents`, and when `documents` runs
 * dry `root`'s tie-group is emitted and the scan restarts on its children.
 */
module Reducer {
  import opened Wrappers
  import opened HeapNodes

  /** A human judgement of `root` against `next_node`. */
  datatype Decision = Greater | Tie | Less

  /** The fields of a `Judgo` instance that the algorithm reads and writes. */
  datatype State = State(
    documents: seq<Node>,
    root: Option<Node>,
    nextNode: Option<Node>,
    equivalenceClasses: seq<seq<Id>>,
    roundNumber: int)

  /** Every id in a sequence of emitted tie-groups. */
  function ClassIds(cs: seq<seq<Id>>): multiset<Id>
  {
    if cs == [] then multiset{} else ClassIds(cs[..|cs| - 1]) + multiset(cs[|cs| - 1])
  }

  /** The ids of an optional node. */
  function OptIds(n: Option<Node>): multiset<Id>
  {
    if n.Some? then NodeIds(n.value) else multiset{}
  }

  /** The number of nodes of an optional node's tree. */
  function OptSize(n: Option<Node>): nat
  {
    if n.Some? then Size(n.value) else 0
  }

  /** What `#next` still has to scan: the root's tree when `documents` is empty. */
  function NextMeasure(s: State): nat
  {
    if s.documents == [] && s.root.Some? then Size(s.root.value) else 0
  }

  /**
   * `#next`: shift the head of `documents`; with `documents` empty, emit
   * `root`'s tie-group, and unless `root` is a leaf make its children the
   * pool, their first node the new `root` (no comparison), and draw again.
   * Returns the new state and the drawn node (`None` for JavaScript's null).
   * Every caller has `documents` non-empty or `root` set; otherwise the
   * source reads a property of `undefined`.
   */
  function Advance(s: State): (r: (State, Option<Node>))
    requires s.documents != [] || s.root.Some?
    ensures r.0.nextNode == s.nextNode
    decreases NextMeasure(s)
  {
    if s.documents != [] then
      (s.(documents := s.documents[1..]), Some(s.documents[0]))
    else
      var root := s.root.value;
      var classes := s.equivalenceClasses + [root.equivalenceClass];
      var emitted := s.(equivalenceClasses := classes, roundNumber := |classes|);
      if root.children == [] then
        (emitted, None)
      else
        assert Size(root) == 1 + Size(root.children[0]) + ForestSize(root.children[1..]);
        Advance(emitted.(documents := root.children[1..], root := Some(root.children[0])))
  }

  /**
   * The constructor. With two or more documents the first is `root`, the
   * second `next_node`. With exactly one, the second `#next` pushes onto
   * `equivalence_classes` before that field is assigned and throws. With
   * none, nothing is drawn.
   */
  function Construct(documents: seq<Id>): (r: Result<State>)
    ensures r.Failure? <==> |documents| == 1
    ensures |documents| == 0 ==> r == Success(State([], None, None, [], 1))
    ensures |documents| >= 2 ==>
      r.Success? && r.value.root == Some(Leaf(documents[0])) && r.value.nextNode == Some(Leaf(documents[1]))
      && r.value.documents == Leaves(documents[2..]) && r.value.equivalenceClasses == [] && r.value.roundNumber == 1
  {
    if |documents| == 0 then
      Success(State([], None, None, [], 1))
    else if |documents| == 1 then
      Failure(TypeError("equivalence_classes is undefined when #next first emits"))
    else
      var pool := State(Leaves(documents), None, None, [], 1);
      var (s1, root) := Advance(pool);
      var (s2, next) := Advance(s1.(root := root));
      assert s2.documents == Leaves(documents)[2..];
      Success(s2.(nextNode := next))
  }

  /** The node a decision leaves in `root`'s place, before the next draw. */
  function Combine(root: Node, next: Node, d: Decision): (n: Node)
    ensures NodeIds(n) == NodeIds(root) + NodeIds(next)
    ensures d == Tie ==> Size(n) == Size(root) + Size(next) - 1
    ensures d != Tie ==> Size(n) == Size(root) + Size(next) && n.children != []
    ensures d == Greater ==> n.equivalenceClass == root.equivalenceClass && n.children == root.children + [next]
    ensures d == Less ==> n.equivalenceClass == next.equivalenceClass && n.children == next.children + [root]
    ensures d == Tie ==>
      n.equivalenceClass == root.equivalenceClass + next.equivalenceClass && n.children == root.children + next.children
  {
    match d
    case Greater => GreaterThan(root, next)
    case Tie => Equal(root, next)
    case Less => LessThan(root, next)
  }

  /**
   * `greater_than`, `equal` and `less_than` up to the new `next_node`. With
   * no pair to judge the source calls a method of `null`/`undefined`.
   */
  function Decide(s: State, d: Decision): (r: Result<State>)
    ensures r.Failure? <==> s.root.None? || s.nextNode.None?
  {
    if s.root.None? || s.nextNode.None? then
      Failure(TypeError("no pair to judge"))
    else
      var (s1, next) := Advance(s.(root := Some(Combine(s.root.value, s.nextNode.value, d))));
      Success(s1.(nextNode := next))
  }

  /** The number of nodes still live in the pool, `root` and `next_node`. */
  function Nodes(s: State): nat
  {
    ForestSize(s.documents) + OptSize(s.root) + OptSize(s.nextNode)
  }

  /**
   * The partition invariant: every original id is held exactly once. While a
   * pair is being judged it is spread over `documents`, the two trees and
   * the emitted groups. Once finished (`next_node` null) `root` is kept, but
   * it is a leaf whose group is the last one emitted, and the emitted groups
   * alone hold every id.
   */
  predicate Partition(s: State, ids: multiset<Id>)
  {
    match s.root
    case None =>
      s.documents == [] && s.nextNode.None? && ClassIds(s.equivalenceClasses) == ids
    case Some(r) =>
      match s.nextNode
      case Some(n) =>
        ForestIds(s.documents) + NodeIds(r) + NodeIds(n) + ClassIds(s.equivalenceClasses) == ids
      case None =>
        Finished(s) && ClassIds(s.equivalenceClasses) == ids
  }

  /** `round_number` starts at 1 and afterwards is the number of emitted groups. */
  predicate RoundConsistent(s: State)
  {
    s.roundNumber == if s.equivalenceClasses == [] then 1 else |s.equivalenceClasses|
  }

  /** `#next` moves ids between the pool, `root`, the drawn node and the emitted groups, and loses none. */
  lemma {:induction false} AdvanceConserves(s: State)
    requires s.documents != [] || s.root.Some?
    ensures s.root.Some? ==> Advance(s).0.root.Some?
    ensures Advance(s).1.Some? ==>
      ForestIds(Advance(s).0.documents) + OptIds(Advance(s).0.root) + NodeIds(Advance(s).1.value)
        + ClassIds(Advance(s).0.equivalenceClasses)
      == ForestIds(s.documents) + OptIds(s.root) + ClassIds(s.equivalenceClasses)
    ensures Advance(s).1.None? ==> Finished(Advance(s).0)
    ensures Advance(s).1.None? ==>
      ClassIds(Advance(s).0.equivalenceClasses)
      == ForestIds(s.documents) + OptIds(s.root) + ClassIds(s.equivalenceClasses)
    decreases NextMeasure(s)
  {
    if s.documents == [] {
      var root := s.root.value;
      var classes := s.equivalenceClasses + [root.equivalenceClass];
      assert classes[..|classes| - 1] == s.equivalenceClasses;
      var emitted := s.(equivalenceClasses := classes, roundNumber := |classes|);
      if root.children != [] {
        var s' := emitted.(documents := root.children[1..], root := Some(root.children[0]));
        assert Size(root) == 1 + Size(root.children[0]) + ForestSize(root.children[1..]);
        assert Advance(s) == Advance(s');
        AdvanceConserves(s');
        EmitIds(s, s');
      }
    }
  }

  /** The finished shape: nothing left to draw and `root` a leaf whose group was emitted last. */
  predicate Finished(s: State)
  {
    s.documents == [] && s.root.Some? && s.root.value.children == [] && s.equivalenceClasses != []
    && s.equivalenceClasses[|s.equivalenceClasses| - 1] == s.root.value.equivalenceClass
  }

  /** Emitting `root` and restarting on its children keeps every id. */
  lemma EmitIds(s: State, s': State)
    requires s.documents == [] && s.root.Some? && s.root.value.children != []
    requires s'.documents == s.root.value.children[1..] && s'.root == Some(s.root.value.children[0])
    requires s'.equivalenceClasses == s.equivalenceClasses + [s.root.value.equivalenceClass]
    ensures ForestIds(s'.documents) + OptIds(s'.root) + ClassIds(s'.equivalenceClasses)
         == ForestIds(s.documents) + OptIds(s.root) + ClassIds(s.equivalenceClasses)
  {
    var root := s.root.value;
    var classes := s'.equivalenceClasses;
    assert classes[..|classes| - 1] == s.equivalenceClasses;
    assert ClassIds(classes) == ClassIds(s.equivalenceClasses) + multiset(root.equivalenceClass);
    assert ForestIds(root.children) == NodeIds(root.children[0]) + ForestIds(root.children[1..]);
    assert NodeIds(root) == multiset(root.equivalenceClass) + ForestIds(root.children);
  }

  /**
   * `#next` with a non-empty pool returns its head and emits nothing; with an
   * empty pool it emits `root`'s group and sets `round_number` to the new
   * count. Either way the emitted groups only grow at the end.
   */
  lemma {:induction false} AdvanceHistory(s: State)
    requires s.documents != [] || s.root.Some?
    ensures var (t, n) := Advance(s);
      |t.equivalenceClasses| >= |s.equivalenceClasses|
      && t.equivalenceClasses[..|s.equivalenceClasses|] == s.equivalenceClasses
      && (s.documents != [] ==> t == s.(documents := s.documents[1..]) && n == Some(s.documents[0]))
      && (s.documents == [] ==>
            |t.equivalenceClasses| > |s.equivalenceClasses|
            && t.equivalenceClasses[|s.equivalenceClasses|] == s.root.value.equivalenceClass
            && t.roundNumber == |t.equivalenceClasses|)
    decreases NextMeasure(s)
  {
    if s.documents == [] {
      var root := s.root.value;
      var classes := s.equivalenceClasses + [root.equivalenceClass];
      var emitted := s.(equivalenceClasses := classes, roundNumber := |classes|);
      if root.children != [] {
        var s' := emitted.(documents := root.children[1..], root := Some(root.children[0]));
        assert Size(root) == 1 + Size(root.children[0]) + ForestSize(root.children[1..]);
        AdvanceHistory(s');
        var t := Advance(s').0;
        assert t.equivalenceClasses[..|classes|] == classes;
        assert t.equivalenceClasses[..|s.equivalenceClasses|] == classes[..|s.equivalenceClasses|];
      }
    }
  }

  /**
   * `#next` never adds nodes; a draw from the pool keeps their number and
   * shortens the pool, and restarting on a root's children drops that root.
   */
  lemma {:induction false} AdvanceProgress(s: State)
    requires s.documents != [] || s.root.Some?
    ensures var (t, n) := Advance(s);
      ForestSize(t.documents) + OptSize(t.root) + OptSize(n) <= ForestSize(s.documents) + OptSize(s.root)
      && (s.documents != [] ==>
            ForestSize(t.documents) + OptSize(t.root) + OptSize(n) == ForestSize(s.documents) + OptSize(s.root)
            && |t.documents| < |s.documents|)
      && (s.documents == [] && s.root.value.children != [] ==>
            ForestSize(t.documents) + OptSize(t.root) + OptSize(n) < OptSize(s.root))
    decreases NextMeasure(s)
  {
    if s.documents == [] {
      var root := s.root.value;
      var classes := s.equivalenceClasses + [root.equivalenceClass];
      var emitted := s.(equivalenceClasses := classes, roundNumber := |classes|);
      if root.children != [] {
        var s' := emitted.(documents := root.children[1..], root := Some(root.children[0]));
        assert Size(root) == 1 + Size(root.children[0]) + ForestSize(root.children[1..]);
        AdvanceProgress(s');
      }
    }
  }

  /** Every decision keeps the partition invariant. */
  lemma DecideConserves(s: State, d: Decision, ids: multiset<Id>)
    requires Partition(s, ids) && s.root.Some? && s.nextNode.Some?
    ensures Decide(s, d).Success? && Partition(Decide(s, d).value, ids)
  {
    var combined := Combine(s.root.value, s.nextNode.value, d);
    var s' := s.(root := Some(combined));
    AdvanceConserves(s');
    assert ForestIds(s'.documents) + OptIds(s'.root) + ClassIds(s'.equivalenceClasses) == ids;
  }

  /** Emission is append-only: a decision never changes or removes an emitted group. */
  lemma DecideHistory(s: State, d: Decision)
    requires s.root.Some? && s.nextNode.Some?
    ensures var t := Decide(s, d).value;
      |t.equivalenceClasses| >= |s.equivalenceClasses|
      && t.equivalenceClasses[..|s.equivalenceClasses|] == s.equivalenceClasses
      && (RoundConsistent(s) ==> RoundConsistent(t))
  {
    var combined := Combine(s.root.value, s.nextNode.value, d);
    AdvanceHistory(s.(root := Some(combined)));
  }

  /**
   * Termination: every decision either removes a node (an emitted root or a
   * merged tie) or shortens the pool, so a run takes finitely many decisions.
   */
  lemma DecideProgress(s: State, d: Decision)
    requires s.root.Some? && s.nextNode.Some?
    ensures var t := Decide(s, d).value;
      Nodes(t) < Nodes(s) || (Nodes(t) == Nodes(s) && |t.documents| < |s.documents|)
  {
    var combined := Combine(s.root.value, s.nextNode.value, d);
    AdvanceProgress(s.(root := Some(combined)));
  }

  /** Two leaves under judgement and the rest pending hold every document id once. */
  lemma FreshPartition(first: Id, second: Id, rest: seq<Id>)
    ensures Partition(State(Leaves(rest), Some(Leaf(first)), Some(Leaf(second)), [], 1), multiset([first, second] + rest))
  {
    var held := ForestIds(Leaves(rest)) + NodeIds(Leaf(first)) + NodeIds(Leaf(second)) + ClassIds([]);
    assert held == multiset(rest) + multiset{first} + multiset{second} by {
      LeavesIds(rest);
      assert NodeIds(Leaf(first)) == multiset{first};
      assert NodeIds(Leaf(second)) == multiset{second};
    }
    assert multiset([first, second] + rest) == multiset{first} + multiset{second} + multiset(rest);
  }

  /** The constructor establishes the invariants for the ids it was given. */
  lemma ConstructPartition(documents: seq<Id>)
    requires |documents| != 1
    ensures Partition(Construct(documents).value, multiset(documents))
    ensures RoundConsistent(Construct(documents).value)
  {
    if |documents| >= 2 {
      var s := Construct(documents).value;
      assert s == State(Leaves(documents[2..]), Some(Leaf(documents[0])), Some(Leaf(documents[1])), [], 1);
      assert documents == [documents[0], documents[1]] + documents[2..];
      FreshPartition(documents[0], documents[1], documents[2..]);
    }
  }

  /** A run: the decisions applied in order, stopping at the first that throws. */
  function Run(s: State, decisions: seq<Decision>): (r: Result<State>)
    ensures decisions == [] ==> r == Success(s)
    ensures decisions != [] && (s.root.None? || s.nextNode.None?) ==> r.Failure?
    decreases |decisions|
  {
    if decisions == [] then Success(s)
    else
      match Decide(s, decisions[0])
      case Failure(e) => Failure(e)
      case Success(t) => Run(t, decisions[1..])
  }

  /** A run of `a + b` is the run of `a` followed, if it succeeds, by the run of `b`. */
  lemma {:induction false} RunSplit(s: State, a: seq<Decision>, b: seq<Decision>)
    ensures Run(s, a + b) == if Run(s, a).Failure? then Run(s, a) else Run(Run(s, a).value, b)
    decreases |a|
  {
    if a == [] {
      assert a + b == b;
    } else {
      assert (a + b)[0] == a[0] && (a + b)[1..] == a[1..] + b;
      var t := Decide(s, a[0]);
      if t.Success? {
        RunSplit(t.value, a[1..], b);
      }
    }
  }

  /**
   * Every state reachable from the constructor by decisions holds each
   * original id exactly once and keeps `round_number` consistent.
   */
  lemma {:induction false} RunConserves(s: State, decisions: seq<Decision>, ids: multiset<Id>)
    requires Partition(s, ids) && RoundConsistent(s)
    requires Run(s, decisions).Success?
    ensures Partition(Run(s, decisions).value, ids)
    ensures RoundConsistent(Run(s, decisions).value)
    ensures |Run(s, decisions).value.equivalenceClasses| >= |s.equivalenceClasses|
    ensures Run(s, decisions).value.equivalenceClasses[..|s.equivalenceClasses|] == s.equivalenceClasses
    decreases |decisions|
  {
    if decisions != [] {
      DecideConserves(s, decisions[0], ids);
      DecideHistory(s, decisions[0]);
      var t := Decide(s, decisions[0]).value;
      RunConserves(t, decisions[1..], ids);
      var u := Run(t, decisions[1..]).value;
      assert u.equivalenceClasses[..|s.equivalenceClasses|]
          == u.equivalenceClasses[..|t.equivalenceClasses|][..|s.equivalenceClasses|];
    }
  }

  /** The plain object `toObject` builds: `round_number` and the database are not part of it. */
  datatype JudgoObject = JudgoObject(
    documents: seq<Node>,
    root: Option<Node>,
    nextNode: Option<Node>,
    equivalenceClasses: seq<seq<Id>>)

  /** `toObject`. */
  function ToObject(s: State): JudgoObject
  {
    JudgoObject(s.documents, s.root, s.nextNode, s.equivalenceClasses)
  }

  /** The saved object determines the state but for `round_number`, which it leaves out. */
  lemma ToObjectKeeps(s: State, t: State)
    requires ToObject(s) == ToObject(t)
    ensures s.(roundNumber := t.roundNumber) == t
  {
  }

  /**
   * `fromObject`: `HeapNode.fromObject` reads the fields of `root` and
   * `next_node`, so a missing or null one throws; `round_number` is
   * recomputed as the number of emitted groups.
   */
  function FromObject(o: JudgoObject): (r: Result<State>)
    ensures r.Success? <==> o.root.Some? && o.nextNode.Some?
  {
    if o.root.None? || o.nextNode.None? then
      Failure(TypeError("HeapNode.fromObject of null"))
    else
      Success(State(o.documents, o.root, o.nextNode, o.equivalenceClasses, |o.equivalenceClasses|))
  }

  /**
   * The snapshot round trip restores a state with a pair under judgement,
   * except that `round_number` comes back as the number of emitted groups:
   * exact once a group was emitted, 0 instead of 1 before that. A finished
   * or empty instance cannot be restored.
   */
  lemma RoundTrip(s: State)
    requires RoundConsistent(s)
    ensures FromObject(ToObject(s)).Success? <==> s.root.Some? && s.nextNode.Some?
    ensures s.root.Some? && s.nextNode.Some? && s.equivalenceClasses != [] ==>
      FromObject(ToObject(s)) == Success(s)
    ensures s.root.Some? && s.nextNode.Some? && s.equivalenceClasses == [] ==>
      FromObject(ToObject(s)) == Success(s.(roundNumber := 0))
  {
  }

  const D1 := Leaf("d1")
  const D2 := Leaf("d2")
  const D3 := Leaf("d3")
  const D4 := Leaf("d4")
  const N21 := Node(["d2"], [D1])

  lemma TraceConstruct()
    ensures Construct(["d1", "d2", "d3", "d4"]) == Success(State([D3, D4], Some(D1), Some(D2), [], 1))
  {
    assert Leaves(["d1", "d2", "d3", "d4"]) == [D1, D2, D3, D4];
  }

  lemma TraceLess1()
    ensures Decide(State([D3, D4], Some(D1), Some(D2), [], 1), Less) == Success(State([D4], Some(N21), Some(D3), [], 1))
  {
    assert LessThan(D1, D2) == N21;
  }

  lemma TraceLess2()
    ensures Decide(State([D4], Some(N21), Some(D3), [], 1), Less) == Success(State([], Some(Node(["d3"], [N21])), Some(D4), [], 1))
  {
    var s := State([D4], Some(N21), Some(D3), [], 1);
    var c := Combine(N21, D3, Less);
    assert c == Node(["d3"], [N21]);
    var s' := s.(root := Some(c));
    assert s'.documents != [];
    assert Advance(s').1 == Some(D4);
    assert Advance(s').0.documents == [];
    assert Advance(s').0 == s'.(documents := []);
    assert Decide(s, Less) == Success(s'.(documents := [], nextNode := Some(D4)));
  }

  lemma TraceGreater()
    ensures Decide(State([], Some(Node(["d3"], [N21])), Some(D4), [], 1), Greater) == Success(State([], Some(N21), Some(D4), [["d3"]], 1))
  {
    var s := State([], Some(Node(["d3"], [N21])), Some(D4), [], 1);
    var c := Combine(Node(["d3"], [N21]), D4, Greater);
    assert c == Node(["d3"], [N21, D4]);
    var e := State([D4], Some(N21), Some(D4), [["d3"]], 1);
    var s' := s.(root := Some(c));
    assert c.children[1..] == [D4];
    var classes := s'.equivalenceClasses + [c.equivalenceClass];
    assert classes == [["d3"]];
    assert e == s'.(equivalenceClasses := classes, roundNumber := |classes|).(documents := c.children[1..], root := Some(c.children[0]));
    assert Advance(s') == Advance(e);
    assert Advance(e).1 == Some(D4);
    assert Advance(e).0 == e.(documents := []);
  }

  lemma TraceTie()
    ensures Decide(State([], Some(N21), Some(D4), [["d3"]], 1), Tie) == Success(State([], Some(D1), None, [["d3"], ["d2", "d4"], ["d1"]], 3))
  {
    var s := State([], Some(N21), Some(D4), [["d3"]], 1);
    var c := Combine(N21, D4, Tie);
    assert c == Node(["d2", "d4"], [D1]);
    var e := State([], Some(D1), Some(D4), [["d3"], ["d2", "d4"]], 2);
    var s' := s.(root := Some(c));
    assert c.children[1..] == [];
    var classes := s'.equivalenceClasses + [c.equivalenceClass];
    assert classes == [["d3"], ["d2", "d4"]];
    assert e == s'.(equivalenceClasses := classes, roundNumber := |classes|).(documents := c.children[1..], root := Some(c.children[0]));
    assert Advance(s') == Advance(e);
    assert Advance(e).1 == None;
    assert Advance(e).0 == State([], Some(D1), Some(D4), [["d3"], ["d2", "d4"], ["d1"]], 3);
  }

  /**
   * Four documents judged less, less, greater, equal: the groups come out
   * as [d3], [d2, d4], [d1] and no pair is left to judge.
   */
  lemma FourDocumentTrace()
    ensures Construct(["d1", "d2", "d3", "d4"]).Success?
    ensures var r := Run(Construct(["d1", "d2", "d3", "d4"]).value, [Less, Less, Greater, Tie]);
      r.Success? && r.value.equivalenceClasses == [["d3"], ["d2", "d4"], ["d1"]] && r.value.nextNode.None?
  {
    TraceConstruct();
    TraceLess1();
    TraceLess2();
    TraceGreater();
    TraceTie();
    var s0 := State([D3, D4], Some(D1), Some(D2), [], 1);
    var s1 := State([D4], Some(N21), Some(D3), [], 1);
    var s2 := State([], Some(Node(["d3"], [N21])), Some(D4), [], 1);
    var s3 := State([], Some(N21), Some(D4), [["d3"]], 1);
    var s4 := State([], Some(D1), None, [["d3"], ["d2", "d4"], ["d1"]], 3);
    var ds := [Less, Less, Greater, Tie];
    RunCons(s3, ds[3..], s4);
    RunCons(s2, ds[2..], s3);
    RunCons(s1, ds[1..], s2);
    RunCons(s0, ds, s1);
    assert ds[3..][1..] == [] && ds[2..][1..] == ds[3..] && ds[1..][1..] == ds[2..];
    assert Run(s0, ds) == Success(s4);
  }

  /** One decision of a run. */
  lemma RunCons(s: State, ds: seq<Decision>, t: State)
    requires ds != [] && Decide(s, ds[0]) == Success(t)
    ensures Run(s, ds) == Run(t, ds[1..])
  {
  }

  /**
   * A `Judgo` instance. Its methods follow the source statement by
   * statement and are proved against the state functions above.
   */
  class Judgo {
    var documents: seq<Node>
    var root: Option<Node>
    var nextNode: Option<Node>
    var equivalenceClasses: seq<seq<Id>>
    var roundNumber: int

    /** The instance's fields as a state value. */
    function Snapshot(): State
      reads this
    {
      State(documents, root, nextNode, equivalenceClasses, roundNumber)
    }

    /**
     * The constructor. A Dafny constructor cannot throw, so the allocation
     * and the one-document failure are reported through a result.
     */
    static method Create(documents: seq<Id>) returns (r: Result<Judgo>)
      ensures r.Failure? <==> |documents| == 1
      ensures r.Success? ==> fresh(r.value) && r.value.Snapshot() == Construct(documents).value
    {
      var j := new Judgo;
      // The source assigns the history fields after the two draws; the
      // draws only touch them when a single document is emitted at once,
      // which is the failure reported below.
      j.documents, j.root, j.nextNode := Leaves(documents), None, None;
      j.equivalenceClasses, j.roundNumber := [], 1;
      if |documents| > 0 {
        j.root := j.Next();
        if j.documents == [] {
          return Failure(TypeError("equivalence_classes is undefined when #next first emits"));
        }
        j.nextNode := j.Next();
      }
      return Success(j);
    }

    /** `#next`, recursive as in the source. */
    method Next() returns (node: Option<Node>)
      requires documents != [] || root.Some?
      modifies this
      ensures Snapshot() == Advance(old(Snapshot())).0
      ensures node == Advance(old(Snapshot())).1
      decreases NextMeasure(Snapshot())
    {
      if |documents| > 0 {
        node := Some(documents[0]);
        documents := documents[1..];
        return;
      }
      var current := root.value;
      equivalenceClasses := equivalenceClasses + [current.equivalenceClass];
      roundNumber := |equivalenceClasses|;
      if |current.children| == 0 {
        return None;
      }
      assert Size(current) == 1 + Size(current.children[0]) + ForestSize(current.children[1..]);
      documents := current.children;
      root := Next();
      node := Next();
    }

    /** `greater_than` up to the new `next_node`: `root` keeps its group and takes `next_node` as a child. */
    method GreaterThan() returns (ok: bool)
      modifies this
      ensures ok == Decide(old(Snapshot()), Greater).Success?
      ensures Snapshot() == if ok then Decide(old(Snapshot()), Greater).value else old(Snapshot())
    {
      if root.None? || nextNode.None? {
        return false;
      }
      root := Some(HeapNodes.GreaterThan(root.value, nextNode.value));
      nextNode := Next();
      ok := true;
    }

    /** `equal` up to the new `next_node`: `root` absorbs `next_node`. */
    method Equal() returns (ok: bool)
      modifies this
      ensures ok == Decide(old(Snapshot()), Tie).Success?
      ensures Snapshot() == if ok then Decide(old(Snapshot()), Tie).value else old(Snapshot())
    {
      if root.None? || nextNode.None? {
        return false;
      }
      root := Some(HeapNodes.Equal(root.value, nextNode.value));
      nextNode := Next();
      ok := true;
    }

    /** `less_than` up to the new `next_node`: `next_node` takes `root` as a child and becomes `root`. */
    method LessThan() returns (ok: bool)
      modifies this
      ensures ok == Decide(old(Snapshot()), Less).Success?
      ensures Snapshot() == if ok then Decide(old(Snapshot()), Less).value else old(Snapshot())
    {
      if root.None? || nextNode.None? {
        return false;
      }
      root := Some(HeapNodes.LessThan(root.value, nextNode.value));
      nextNode := Next();
      ok := true;
    }
  }
}
