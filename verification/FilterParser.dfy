/** Turning a JMAP filter into a store filter with an explicit stack, and the structural recursion
    that it computes. */
module FilterParser {

  datatype Operator = And | Or | Not

  /** A filter as it is requested. */
  datatype Tree<C> = Op(op: Operator, conditions: seq<Tree<C>>) | Condition(condition: C) | Empty

  /** A filter as it is executed. */
  datatype Filter<F> = Leaf(value: F) | Node(op: Operator, terms: seq<Filter<F>>) | NoFilter

  /** The parser of conditions may keep state: its result depends on the conditions it has been
      called with before. */
  type Parser<!C, F> = (seq<C>, C) -> Parsed<F>

  datatype Parsed<F> = Accepted(filter: Filter<F>) | Rejected

  /** Terms built from a list of trees, or a failed condition; with the conditions parsed so far. */
  datatype Built<C, F> = Terms(calls: seq<C>, terms: seq<Filter<F>>) | Failure(calls: seq<C>)

  datatype Outcome<C, F> = Finished(calls: seq<C>, filter: Filter<F>) | Failed(calls: seq<C>)

  /** An operator without terms is no filter. */
  function Wrap<F>(op: Operator, terms: seq<Filter<F>>): Filter<F> {
    if terms == [] then NoFilter else Node(op, terms)
  }

  /** What a filter adds to the terms around it. */
  function TermOf<F>(filter: Filter<F>): seq<Filter<F>> {
    if filter.NoFilter? then [] else [filter]
  }

  // ----- The structural recursion

  /** Builds the terms of `ts[i..]` from left to right: empty filters and operators without terms
      are dropped, and the first failing condition ends everything. */
  function Build<C, F>(parse: Parser<C, F>, calls: seq<C>, ts: seq<Tree<C>>, i: nat): Built<C, F>
    requires i <= |ts|
    decreases ts, |ts| - i
  {
    if i == |ts| then Terms(calls, [])
    else
      match ts[i]
      case Empty => Build(parse, calls, ts, i + 1)
      case Condition(c) =>
        (match parse(calls, c)
         case Rejected => Failure(calls + [c])
         case Accepted(f) => Prepend([f], Build(parse, calls + [c], ts, i + 1)))
      case Op(op, conditions) =>
        (match Build(parse, calls, conditions, 0)
         case Failure(calls') => Failure(calls')
         case Terms(calls', terms) => Prepend(TermOf(Wrap(op, terms)), Build(parse, calls', ts, i + 1)))
  }

  function Prepend<C, F>(first: seq<Filter<F>>, rest: Built<C, F>): Built<C, F> {
    if rest.Failure? then rest else Terms(rest.calls, first + rest.terms)
  }

  function Reference<C, F>(parse: Parser<C, F>, tree: Tree<C>): Outcome<C, F> {
    var (op, conditions) := if tree.Op? then (tree.op, tree.conditions) else (And, [tree]);
    match Build(parse, [], conditions, 0)
    case Failure(calls) => Failed(calls)
    case Terms(calls, terms) => Finished(calls, Wrap(op, terms))
  }

  // ----- The explicit stack

  /** An operator whose conditions up to `next` have been turned into terms. */
  datatype Frame<C, F> = Frame(op: Operator, terms: seq<Filter<F>>, conditions: seq<Tree<C>>, next: nat)

  ghost predicate ValidFrame<C, F>(frame: Frame<C, F>) {
    frame.next <= |frame.conditions|
  }

  ghost predicate ValidStack<C, F>(stack: seq<Frame<C, F>>) {
    forall i :: 0 <= i < |stack| ==> ValidFrame(stack[i])
  }

  /** What remains to be done for a frame and the stack below it. */
  ghost function Finish<C, F>(parse: Parser<C, F>, calls: seq<C>, frame: Frame<C, F>,
                              stack: seq<Frame<C, F>>): Outcome<C, F>
    requires ValidFrame(frame) && ValidStack(stack)
    decreases |stack|
  {
    match Build(parse, calls, frame.conditions, frame.next)
    case Failure(calls') => Failed(calls')
    case Terms(calls', terms) => Return(parse, calls', frame.op, frame.terms + terms, stack)
  }

  /** The terms of the innermost operator are complete: go on with the one around it. */
  ghost function Return<C, F>(parse: Parser<C, F>, calls: seq<C>, op: Operator, terms: seq<Filter<F>>,
                              stack: seq<Frame<C, F>>): Outcome<C, F>
    requires ValidStack(stack)
    decreases |stack|, 0
  {
    if stack == [] then Finished(calls, Wrap(op, terms))
    else
      var outer := stack[|stack| - 1];
      Finish(parse, calls, outer.(terms := outer.terms + TermOf(Wrap(op, terms))), stack[..|stack| - 1])
  }

  /** Nodes of a list of trees, plus one for the list itself. */
  ghost function Size<C>(ts: seq<Tree<C>>, i: nat): nat
    requires i <= |ts|
    decreases ts, |ts| - i
  {
    if i == |ts| then 1 else (if ts[i].Op? then Size(ts[i].conditions, 0) else 0) + 1 + Size(ts, i + 1)
  }

  ghost function StackSize<C, F>(stack: seq<Frame<C, F>>): nat
    requires ValidStack(stack)
  {
    if stack == [] then 0
    else StackSize(stack[..|stack| - 1]) + Size(stack[|stack| - 1].conditions, stack[|stack| - 1].next)
  }

  lemma PushFrame<C, F>(parse: Parser<C, F>, calls: seq<C>, frame: Frame<C, F>, stack: seq<Frame<C, F>>)
    requires ValidFrame(frame) && ValidStack(stack)
    requires frame.next < |frame.conditions| && frame.conditions[frame.next].Op?
    ensures var inner, outer := frame.conditions[frame.next], frame.(next := frame.next + 1);
            && ValidStack(stack + [outer])
            && Finish(parse, calls, Frame(inner.op, [], inner.conditions, 0), stack + [outer]) ==
               Finish(parse, calls, frame, stack)
            && StackSize(stack + [outer]) + Size(inner.conditions, 0)
               < StackSize(stack) + Size(frame.conditions, frame.next)
  {
    var inner, outer := frame.conditions[frame.next], frame.(next := frame.next + 1);
    assert (stack + [outer])[..|stack|] == stack;
    match Build(parse, calls, inner.conditions, 0) {
      case Failure(_) =>
      case Terms(calls', terms) =>
        assert [] + terms == terms;
        assert Return(parse, calls', inner.op, terms, stack + [outer]) ==
               Finish(parse, calls', outer.(terms := outer.terms + TermOf(Wrap(inner.op, terms))), stack);
        var rest := Build(parse, calls', frame.conditions, frame.next + 1);
        if rest.Terms? {
          assert (frame.terms + TermOf(Wrap(inner.op, terms))) + rest.terms ==
                 frame.terms + (TermOf(Wrap(inner.op, terms)) + rest.terms);
        }
    }
  }

  lemma TakeTerm<C, F>(parse: Parser<C, F>, calls: seq<C>, frame: Frame<C, F>, stack: seq<Frame<C, F>>, f: Filter<F>)
    requires ValidFrame(frame) && ValidStack(stack)
    requires frame.next < |frame.conditions| && frame.conditions[frame.next].Condition?
    requires parse(calls, frame.conditions[frame.next].condition) == Accepted(f)
    ensures Finish(parse, calls + [frame.conditions[frame.next].condition],
                   frame.(next := frame.next + 1, terms := frame.terms + [f]), stack)
         == Finish(parse, calls, frame, stack)
  {
    var rest := Build(parse, calls + [frame.conditions[frame.next].condition], frame.conditions, frame.next + 1);
    if rest.Terms? {
      assert (frame.terms + [f]) + rest.terms == frame.terms + ([f] + rest.terms);
    }
  }

  /** `parse_filter`: the loop over frames. Its result, the order in which it parses conditions and
      the condition it fails at are those of the structural recursion. */
  method ParseFilter<C, F>(parse: Parser<C, F>, tree: Tree<C>) returns (r: Outcome<C, F>)
    ensures r == Reference(parse, tree)
  {
    var frame: Frame<C, F> := if tree.Op? then Frame(tree.op, [], tree.conditions, 0) else Frame(And, [], [tree], 0);
    var stack: seq<Frame<C, F>> := [];
    var calls: seq<C> := [];
    ghost var goal := Finish(parse, calls, frame, stack);
    assert goal == Reference(parse, tree) by {
      var built := Build(parse, [], frame.conditions, 0);
      assert built.Terms? ==> [] + built.terms == built.terms;
    }
    while true
      invariant ValidFrame(frame) && ValidStack(stack)
      invariant Finish(parse, calls, frame, stack) == goal
      decreases StackSize(stack) + Size(frame.conditions, frame.next)
    {
      if frame.next < |frame.conditions| {
        match frame.conditions[frame.next] {
          case Op(op, conditions) =>
            PushFrame(parse, calls, frame, stack);
            stack := stack + [frame.(next := frame.next + 1)];
            frame := Frame(op, [], conditions, 0);
          case Condition(c) =>
            var parsed := parse(calls, c);
            if parsed.Rejected? {
              return Failed(calls + [c]);
            }
            TakeTerm(parse, calls, frame, stack, parsed.filter);
            frame := frame.(next := frame.next + 1, terms := frame.terms + [parsed.filter]);
            calls := calls + [c];
          case Empty =>
            frame := frame.(next := frame.next + 1);
        }
      } else {
        assert frame.terms + [] == frame.terms;
        var filter := Wrap(frame.op, frame.terms);
        if stack == [] {
          return Finished(calls, filter);
        }
        var outer := stack[|stack| - 1];
        frame := if filter.NoFilter? then outer else outer.(terms := outer.terms + [filter]);
        assert outer.terms + [] == outer.terms;
        stack := stack[..|stack| - 1];
      }
    }
  }

  // ----- Order of the calls

  /** The conditions of a list of trees, from left to right. */
  function Conditions<C>(ts: seq<Tree<C>>, i: nat): seq<C>
    requires i <= |ts|
    decreases ts, |ts| - i
  {
    if i == |ts| then []
    else
      (match ts[i]
       case Empty => []
       case Condition(c) => [c]
       case Op(_, conditions) => Conditions(conditions, 0)) + Conditions(ts, i + 1)
  }

  /** Of the calls from number `from` on, exactly the last was rejected, or none. */
  ghost predicate OnlyLastRejected<C, F>(parse: Parser<C, F>, from: nat, calls: seq<C>, failed: bool) {
    forall k :: from <= k < |calls| ==> (parse(calls[..k], calls[k]) == Rejected <==> failed && k == |calls| - 1)
  }

  lemma MoreCalls<C, F>(parse: Parser<C, F>, from: nat, calls: seq<C>, more: seq<C>, failed: bool)
    requires calls <= more && (failed ==> |calls| < |more|)
    requires OnlyLastRejected(parse, from, calls, false) && OnlyLastRejected(parse, |calls|, more, failed)
    ensures OnlyLastRejected(parse, from, more, failed)
  {
    forall k | from <= k < |calls| ensures parse(more[..k], more[k]) != Rejected {
      assert more[..k] == calls[..k];
    }
  }

  /** The condition parser is called on the conditions in order: on all of them if it accepts them,
      and otherwise on those up to the first that it rejects. */
  lemma {:induction false} CallsInOrder<C, F>(parse: Parser<C, F>, calls: seq<C>, ts: seq<Tree<C>>, i: nat)
    requires i <= |ts|
    ensures var r := Build(parse, calls, ts, i);
            var all := calls + Conditions(ts, i);
            && OnlyLastRejected(parse, |calls|, r.calls, r.Failure?)
            && (r.Terms? ==> r.calls == all)
            && (r.Failure? ==> calls < r.calls <= all)
    decreases ts, |ts| - i
  {
    if i < |ts| {
      var rest := Conditions(ts, i + 1);
      match ts[i] {
        case Empty =>
          CallsInOrder(parse, calls, ts, i + 1);
          assert [] + rest == rest;
        case Condition(c) =>
          assert (calls + [c]) + rest == calls + ([c] + rest);
          assert (calls + [c])[..|calls|] == calls;
          CallsInOrder(parse, calls + [c], ts, i + 1);
          if parse(calls, c).Accepted? {
            var later := Build(parse, calls + [c], ts, i + 1);
            MoreCalls(parse, |calls|, calls + [c], later.calls, later.Failure?);
          }
        case Op(_, conditions) =>
          CallsInOrder(parse, calls, conditions, 0);
          var inner := Build(parse, calls, conditions, 0);
          var mine := Conditions(conditions, 0);
          assert (calls + mine) + rest == calls + (mine + rest);
          if inner.Terms? {
            CallsInOrder(parse, inner.calls, ts, i + 1);
            var later := Build(parse, inner.calls, ts, i + 1);
            MoreCalls(parse, |calls|, inner.calls, later.calls, later.Failure?);
          }
      }
    }
  }

  // ----- What the filter means

  /** Whether the conditions of a tree amount to true, given the truth of each by its number from left to right; the
      first condition of the tree has number `n`. Trees without any condition are left out. */
  predicate Holds<C>(truth: nat -> bool, n: nat, tree: Tree<C>)
    decreases tree, 0
  {
    match tree
    case Empty => true
    case Condition(_) => truth(n)
    case Op(And, ts) => AllHold(truth, n, ts, 0)
    case Op(Or, ts) => AnyHolds(truth, n, ts, 0)
    case Op(Not, ts) => !AnyHolds(truth, n, ts, 0)
  }

  predicate HasCondition<C>(tree: Tree<C>) {
    Conditions([tree], 0) != []
  }

  predicate AllHold<C>(truth: nat -> bool, n: nat, ts: seq<Tree<C>>, i: nat)
    requires i <= |ts|
    decreases ts, |ts| - i
  {
    i < |ts| ==>
      && (HasCondition(ts[i]) ==> Holds(truth, n, ts[i]))
      && AllHold(truth, n + |Conditions([ts[i]], 0)|, ts, i + 1)
  }

  predicate AnyHolds<C>(truth: nat -> bool, n: nat, ts: seq<Tree<C>>, i: nat)
    requires i <= |ts|
    decreases ts, |ts| - i
  {
    i < |ts| &&
      (|| (HasCondition(ts[i]) && Holds(truth, n, ts[i]))
       || AnyHolds(truth, n + |Conditions([ts[i]], 0)|, ts, i + 1))
  }

  predicate FilterHolds<F>(value: F -> bool, filter: Filter<F>) {
    match filter
    case Leaf(x) => value(x)
    case NoFilter => true
    case Node(And, terms) => forall k :: 0 <= k < |terms| ==> FilterHolds(value, terms[k])
    case Node(Or, terms) => exists k :: 0 <= k < |terms| && FilterHolds(value, terms[k])
    case Node(Not, terms) => forall k :: 0 <= k < |terms| ==> !FilterHolds(value, terms[k])
  }

  /** The truth of each condition from number `from` on is that of the filter it was accepted as. */
  ghost predicate IsTruth<C, F>(parse: Parser<C, F>, value: F -> bool, truth: nat -> bool, from: nat, calls: seq<C>) {
    forall k :: from <= k < |calls| ==>
      var parsed := parse(calls[..k], calls[k]);
      parsed.Accepted? && (truth(k) <==> FilterHolds(value, parsed.filter))
  }

  /** Terms that amount to the trees from number `i` on. */
  ghost predicate Means<C, F>(value: F -> bool, terms: seq<Filter<F>>, truth: nat -> bool, n: nat, ts: seq<Tree<C>>,
                              i: nat)
    requires i <= |ts|
  {
    && (terms == [] <==> Conditions(ts, i) == [])
    && ((forall k :: 0 <= k < |terms| ==> FilterHolds(value, terms[k])) <==> AllHold(truth, n, ts, i))
    && ((exists k :: 0 <= k < |terms| && FilterHolds(value, terms[k])) <==> AnyHolds(truth, n, ts, i))
  }

  lemma FirstOf<C>(ts: seq<Tree<C>>, i: nat)
    requires i < |ts|
    ensures Conditions(ts, i) == Conditions([ts[i]], 0) + Conditions(ts, i + 1)
  {
    assert Conditions([ts[i]], 1) == [];
  }

  /** One more tree, whose conditions are those of one term, or none. */
  lemma MeansMore<C, F>(value: F -> bool, first: seq<Filter<F>>, rest: seq<Filter<F>>, truth: nat -> bool, n: nat,
                        ts: seq<Tree<C>>, i: nat)
    requires i < |ts| && IsTermOf(value, first, truth, n, ts[i])
    requires Means(value, rest, truth, n + |Conditions([ts[i]], 0)|, ts, i + 1)
    ensures Means(value, first + rest, truth, n, ts, i)
  {
    var terms := first + rest;
    FirstOf(ts, i);
    assert forall k :: 0 <= k < |rest| ==> terms[k + |first|] == rest[k];
    assert forall k :: 0 <= k < |terms| ==> terms[k] == if k < |first| then first[k] else rest[k - |first|];
  }

  /** An operator means what its terms do under it. */
  lemma WrapMeans<C, F>(value: F -> bool, op: Operator, terms: seq<Filter<F>>, truth: nat -> bool, n: nat,
                        ts: seq<Tree<C>>)
    requires Means(value, terms, truth, n, ts, 0)
    ensures var filter := Wrap(op, terms);
            && (filter.NoFilter? <==> Conditions(ts, 0) == [])
            && (terms != [] ==> (FilterHolds(value, filter) <==> Holds(truth, n, Op(op, ts))))
  {
  }

  lemma OpConditions<C>(op: Operator, ts: seq<Tree<C>>)
    ensures Conditions([Op(op, ts)], 0) == Conditions(ts, 0)
  {
    assert Conditions([Op(op, ts)], 1) == [];
    assert Conditions(ts, 0) + [] == Conditions(ts, 0);
  }

  /** The terms of the trees from number `i` on mean what they do. */
  ghost predicate BuiltMeans<C, F>(parse: Parser<C, F>, value: F -> bool, truth: nat -> bool, calls: seq<C>,
                                   ts: seq<Tree<C>>, i: nat)
    requires i <= |ts|
  {
    var built := Build(parse, calls, ts, i);
    built.Terms? && Means(value, built.terms, truth, |calls|, ts, i)
  }

  lemma EmptyMeans<C, F>(parse: Parser<C, F>, value: F -> bool, truth: nat -> bool, calls: seq<C>, ts: seq<Tree<C>>,
                         i: nat)
    requires i < |ts| && ts[i].Empty? && BuiltMeans(parse, value, truth, calls, ts, i + 1)
    ensures BuiltMeans(parse, value, truth, calls, ts, i)
  {
    var rest := Build(parse, calls, ts, i + 1).terms;
    assert Conditions([ts[i]], 0) == [];
    MeansMore(value, [], rest, truth, |calls|, ts, i);
    assert [] + rest == rest;
  }

  lemma ConditionMeans<C, F>(parse: Parser<C, F>, value: F -> bool, truth: nat -> bool, calls: seq<C>,
                             ts: seq<Tree<C>>, i: nat, f: Filter<F>)
    requires i < |ts| && ts[i].Condition? && parse(calls, ts[i].condition) == Accepted(f)
    requires truth(|calls|) <==> FilterHolds(value, f)
    requires BuiltMeans(parse, value, truth, calls + [ts[i].condition], ts, i + 1)
    ensures BuiltMeans(parse, value, truth, calls, ts, i)
  {
    var c := ts[i].condition;
    var rest := Build(parse, calls + [c], ts, i + 1).terms;
    assert Conditions([ts[i]], 0) == [c];
    MeansMore(value, [f], rest, truth, |calls|, ts, i);
  }

  /** `first` is what a tree adds to the terms around it. */
  ghost predicate IsTermOf<C, F>(value: F -> bool, first: seq<Filter<F>>, truth: nat -> bool, n: nat, tree: Tree<C>) {
    && |first| <= 1 && (first == [] <==> !HasCondition(tree))
    && (first != [] ==> (FilterHolds(value, first[0]) <==> Holds(truth, n, tree)))
  }

  lemma OpTerm<C, F>(value: F -> bool, op: Operator, terms: seq<Filter<F>>, truth: nat -> bool, n: nat,
                     ts: seq<Tree<C>>)
    requires Means(value, terms, truth, n, ts, 0)
    ensures IsTermOf(value, TermOf(Wrap(op, terms)), truth, n, Op(op, ts))
  {
    OpConditions(op, ts);
    WrapMeans(value, op, terms, truth, n, ts);
  }

  lemma BuildOp<C, F>(parse: Parser<C, F>, calls: seq<C>, ts: seq<Tree<C>>, i: nat, inner: Built<C, F>,
                      rest: Built<C, F>)
    requires i < |ts| && ts[i].Op? && inner == Build(parse, calls, ts[i].conditions, 0) && inner.Terms?
    requires rest == Build(parse, inner.calls, ts, i + 1) && rest.Terms?
    ensures Build(parse, calls, ts, i) == Terms(rest.calls, TermOf(Wrap(ts[i].op, inner.terms)) + rest.terms)
  {
  }

  lemma OpMeans<C, F>(parse: Parser<C, F>, value: F -> bool, truth: nat -> bool, calls: seq<C>, ts: seq<Tree<C>>,
                      i: nat, inner: Built<C, F>, rest: Built<C, F>)
    requires i < |ts| && ts[i].Op? && inner == Build(parse, calls, ts[i].conditions, 0) && inner.Terms?
    requires rest == Build(parse, inner.calls, ts, i + 1) && rest.Terms?
    requires |inner.calls| == |calls| + |Conditions(ts[i].conditions, 0)|
    requires Means(value, inner.terms, truth, |calls|, ts[i].conditions, 0)
    requires Means(value, rest.terms, truth, |inner.calls|, ts, i + 1)
    ensures BuiltMeans(parse, value, truth, calls, ts, i)
  {
    BuildOp(parse, calls, ts, i, inner, rest);
    OpConditions(ts[i].op, ts[i].conditions);
    OpTerm(value, ts[i].op, inner.terms, truth, |calls|, ts[i].conditions);
    MeansMore(value, TermOf(Wrap(ts[i].op, inner.terms)), rest.terms, truth, |calls|, ts, i);
  }

  lemma CallsOf<C, F>(parse: Parser<C, F>, calls: seq<C>, ts: seq<Tree<C>>, i: nat)
    requires i <= |ts| && Build(parse, calls, ts, i).Terms?
    ensures Build(parse, calls, ts, i).calls == calls + Conditions(ts, i)
  {
    CallsInOrder(parse, calls, ts, i);
  }

  /** The built terms mean what the trees do. */
  lemma {:induction false} BuildMeans<C, F>(parse: Parser<C, F>, value: F -> bool, truth: nat -> bool, calls: seq<C>,
                                            ts: seq<Tree<C>>, i: nat, all: seq<C>)
    requires i <= |ts| && Build(parse, calls, ts, i).Terms? && Build(parse, calls, ts, i).calls <= all
    requires IsTruth(parse, value, truth, |calls|, all)
    ensures BuiltMeans(parse, value, truth, calls, ts, i)
    decreases ts, |ts| - i
  {
    if i < |ts| {
      CallsOf(parse, calls, ts, i);
      match ts[i] {
        case Empty =>
          BuildMeans(parse, value, truth, calls, ts, i + 1, all);
          EmptyMeans(parse, value, truth, calls, ts, i);
        case Condition(c) =>
          CallsOf(parse, calls + [c], ts, i + 1);
          assert calls + [c] <= all;
          assert all[..|calls|] == calls && all[|calls|] == c;
          BuildMeans(parse, value, truth, calls + [c], ts, i + 1, all);
          ConditionMeans(parse, value, truth, calls, ts, i, parse(calls, c).filter);
        case Op(op, conditions) =>
          var calls' := Build(parse, calls, conditions, 0).calls;
          CallsOf(parse, calls, conditions, 0);
          CallsOf(parse, calls', ts, i + 1);
          BuildMeans(parse, value, truth, calls, conditions, 0, all);
          BuildMeans(parse, value, truth, calls', ts, i + 1, all);
          OpMeans(parse, value, truth, calls, ts, i, Build(parse, calls, conditions, 0),
                  Build(parse, calls', ts, i + 1));
      }
    }
  }

  /** The built filter amounts to the requested one: for every tree whose conditions are accepted, it is no filter if
      and only if the tree has no condition, and otherwise it is true exactly if the tree is. */
  lemma FilterMeansTree<C, F>(parse: Parser<C, F>, value: F -> bool, truth: nat -> bool, tree: Tree<C>)
    requires Reference(parse, tree).Finished?
    requires IsTruth(parse, value, truth, 0, Reference(parse, tree).calls)
    ensures var filter := Reference(parse, tree).filter;
            && (filter.NoFilter? <==> !HasCondition(tree))
            && (HasCondition(tree) ==> (FilterHolds(value, filter) <==> Holds(truth, 0, tree)))
  {
    var calls := Reference(parse, tree).calls;
    if tree.Op? {
      var terms := Build(parse, [], tree.conditions, 0).terms;
      BuildMeans(parse, value, truth, [], tree.conditions, 0, calls);
      WrapMeans(value, tree.op, terms, truth, 0, tree.conditions);
      OpConditions(tree.op, tree.conditions);
    } else {
      var terms := Build(parse, [], [tree], 0).terms;
      BuildMeans(parse, value, truth, [], [tree], 0, calls);
      WrapMeans(value, And, terms, truth, 0, [tree]);
    }
  }
}
