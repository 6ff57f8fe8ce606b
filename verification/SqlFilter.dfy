/**
 * The catalogue's filters, printed as a flat WHERE clause
 * (api/internal/postgres/postgres.go). SQL reads the clause with AND binding
 * tighter than OR; the printed filter keeps its meaning.
 */
module SqlFilter {
  import opened Lists
  import opened Messages

  /** A single test; what it says about a manifest is left open. */
  datatype Atom = Contains(manifest: nat) | Intersects(shape: nat)

  datatype Op = And | Or

  datatype Filter = Filter(eq: Option<nat>, or: Filters, and: Filters)

  datatype Filters = Absent | List(filters: seq<Filter>)

  datatype Token = Term(atom: Atom) | Conn(op: Op) | Open | Close

  /*
   * What a filter means
   */

  type Env = Atom -> bool

  /** All, or any, of the values. Nothing means nothing. */
  function Combine(op: Op, values: seq<bool>): Option<bool> {
    if |values| == 0 then None
    else if op == And then Some(forall i :: 0 <= i < |values| ==> values[i])
    else Some(exists i :: 0 <= i < |values| && values[i])
  }

  function Present(v: Option<bool>): (r: seq<bool>) {
    if v.Some? then [v.value] else []
  }

  /**
   * The fields of a filter are combined by the operator of the list it is in;
   * the lists by their own. Absent and empty parts do not matter.
   */
  function Value(f: Filter, op: Op, env: Env): Option<bool>
    decreases f
  {
    Combine(op,
      Present(if f.eq.Some? then Some(env(Contains(f.eq.value))) else None)
      + Present(if f.or.List? then Combine(Or, AllPresent(ListValues(f.or.filters, Or, env))) else None)
      + Present(if f.and.List? then Combine(And, AllPresent(ListValues(f.and.filters, And, env))) else None))
  }

  function ListValues(fs: seq<Filter>, op: Op, env: Env): (r: seq<Option<bool>>)
    ensures |r| == |fs|
    decreases fs
  {
    seq(|fs|, i requires 0 <= i < |fs| => Value(fs[i], op, env))
  }

  /** The values that are there. */
  function AllPresent(vs: seq<Option<bool>>): seq<bool> {
    Flatten(Map(Present, vs))
  }

  /** Some filter of the list has this value. */
  ghost predicate SomeValue(fs: Filters, op: Op, env: Env, b: bool) {
    fs.List? && exists i :: 0 <= i < |fs.filters| && Value(fs.filters[i], op, env) == Some(b)
  }

  /** Some filter of the list has a value. */
  ghost predicate HasValue(fs: Filters, op: Op, env: Env) {
    SomeValue(fs, op, env, true) || SomeValue(fs, op, env, false)
  }

  lemma AllPresentIs(vs: seq<Option<bool>>, b: bool)
    ensures b in AllPresent(vs) <==> exists i :: 0 <= i < |vs| && vs[i] == Some(b)
  {
    FlattenMember(Map(Present, vs), b);
    forall i | 0 <= i < |vs|
      ensures b in Map(Present, vs)[i] <==> vs[i] == Some(b)
    {
      assert Map(Present, vs)[i] == Present(vs[i]);
      assert vs[i].Some? ==> (b in [vs[i].value] <==> b == vs[i].value);
    }
  }

  /** The value of a list: OR wants one filter that holds, and AND none that does not. */
  lemma ListValueIs(fs: Filters, op: Op, env: Env)
    requires fs.List?
    ensures Combine(op, AllPresent(ListValues(fs.filters, op, env)))
            == if !HasValue(fs, op, env) then None
               else Some(if op == Or then SomeValue(fs, op, env, true) else !SomeValue(fs, op, env, false))
  {
    var vs := ListValues(fs.filters, op, env);
    forall b
      ensures b in AllPresent(vs) <==> SomeValue(fs, op, env, b)
    {
      AllPresentIs(vs, b);
      assert forall i :: 0 <= i < |vs| ==> vs[i] == Value(fs.filters[i], op, env);
    }
    BoolsIn(op, AllPresent(vs));
  }

  lemma BoolsIn(op: Op, values: seq<bool>)
    ensures Combine(op, values)
            == if true !in values && false !in values then None
               else Some(if op == Or then true in values else false !in values)
  {
    if |values| > 0 {
      assert values[0] in values;
    }
  }

  lemma ThreeParts(op: Op, x: Option<bool>, y: Option<bool>, z: Option<bool>)
    ensures Combine(op, Present(x) + Present(y) + Present(z))
            == if x.None? && y.None? && z.None? then None
               else if op == And then Some(x != Some(false) && y != Some(false) && z != Some(false))
               else Some(x == Some(true) || y == Some(true) || z == Some(true))
  {
    var values := Present(x) + Present(y) + Present(z);
    BoolsIn(op, values);
    forall b
      ensures b in values <==> x == Some(b) || y == Some(b) || z == Some(b)
    {
      assert b in values <==> b in Present(x) || b in Present(y) || b in Present(z);
    }
  }

  /** The value of a filter, from that of its three fields. */
  lemma ValueIs(f: Filter, op: Op, env: Env)
    ensures var eqs := f.eq.Some?;
            var ors, ands := HasValue(f.or, Or, env), HasValue(f.and, And, env);
            var eq, or := eqs && env(Contains(f.eq.value)), SomeValue(f.or, Or, env, true);
            var and := !SomeValue(f.and, And, env, false);
            Value(f, op, env)
            == if !eqs && !ors && !ands then None
               else if op == And then Some((eqs ==> eq) && (ors ==> or) && (ands ==> and))
               else Some((eqs && eq) || (ors && or) || (ands && and))
  {
    if f.or.List? {
      ListValueIs(f.or, Or, env);
    }
    if f.and.List? {
      ListValueIs(f.and, And, env);
    }
    ThreeParts(op,
      if f.eq.Some? then Some(env(Contains(f.eq.value))) else None,
      if f.or.List? then Combine(Or, AllPresent(ListValues(f.or.filters, Or, env))) else None,
      if f.and.List? then Combine(And, AllPresent(ListValues(f.and.filters, And, env))) else None);
  }

  /*
   * How SQL reads a clause
   */

  datatype Expr = Var(atom: Atom) | Both(left: Expr, right: Expr) | Either(left: Expr, right: Expr)

  predicate Eval(e: Expr, env: Env) {
    match e
    case Var(a) => env(a)
    case Both(l, r) => Eval(l, env) && Eval(r, env)
    case Either(l, r) => Eval(l, env) || Eval(r, env)
  }

  datatype Parsed = Parsed(expr: Expr, rest: seq<Token>) | SyntaxError

  predicate StartsWith(ts: seq<Token>, t: Token) {
    |ts| > 0 && ts[0] == t
  }

  function ParseOr(ts: seq<Token>): (p: Parsed)
    ensures p.Parsed? ==> |p.rest| < |ts|
    decreases |ts|, 2
  {
    var p := ParseAnd(ts);
    if p.SyntaxError? || !StartsWith(p.rest, Conn(Or)) then p
    else
      var q := ParseOr(p.rest[1..]);
      if q.SyntaxError? then q else Parsed(Either(p.expr, q.expr), q.rest)
  }

  function ParseAnd(ts: seq<Token>): (p: Parsed)
    ensures p.Parsed? ==> |p.rest| < |ts|
    decreases |ts|, 1
  {
    var p := ParseFactor(ts);
    if p.SyntaxError? || !StartsWith(p.rest, Conn(And)) then p
    else
      var q := ParseAnd(p.rest[1..]);
      if q.SyntaxError? then q else Parsed(Both(p.expr, q.expr), q.rest)
  }

  function ParseFactor(ts: seq<Token>): (p: Parsed)
    ensures p.Parsed? ==> |p.rest| < |ts|
    decreases |ts|, 0
  {
    if |ts| == 0 then SyntaxError
    else
      match ts[0]
      case Term(a) => Parsed(Var(a), ts[1..])
      case Open =>
        var p := ParseOr(ts[1..]);
        if p.Parsed? && StartsWith(p.rest, Close) then Parsed(p.expr, p.rest[1..]) else SyntaxError
      case _ => SyntaxError
  }

  /*
   * What is printed: factors, joined by one operator
   */

  datatype Factor = Leaf(atom: Atom) | Group(op: Op, items: seq<Factor>)

  predicate Proper(f: Factor) {
    f.Group? ==> |f.items| > 0 && forall i :: 0 <= i < |f.items| ==> Proper(f.items[i])
  }

  predicate AllProper(fs: seq<Factor>) {
    forall i :: 0 <= i < |fs| ==> Proper(fs[i])
  }

  /** The factors of a filter: its own test, and its lists in parentheses. */
  function Factors(f: Filter): (r: seq<Factor>)
    ensures AllProper(r)
    decreases f
  {
    (if f.eq.Some? then [Leaf(Contains(f.eq.value))] else [])
    + (if f.or.List? then Grouped(Or, Together(ListFactors(f.or.filters))) else [])
    + (if f.and.List? then Grouped(And, Together(ListFactors(f.and.filters))) else [])
  }

  function Grouped(op: Op, items: seq<Factor>): (r: seq<Factor>)
    requires AllProper(items)
    ensures AllProper(r)
  {
    if |items| == 0 then [] else [Group(op, items)]
  }

  /** The factors of every filter of a list. */
  function ListFactors(fs: seq<Filter>): (r: seq<seq<Factor>>)
    ensures |r| == |fs| && forall i :: 0 <= i < |fs| ==> AllProper(r[i])
    decreases fs
  {
    seq(|fs|, i requires 0 <= i < |fs| => Factors(fs[i]))
  }

  function Together(s: seq<seq<Factor>>): (r: seq<Factor>)
    requires forall i :: 0 <= i < |s| ==> AllProper(s[i])
    ensures AllProper(r)
  {
    TogetherProper(s);
    Flatten(s)
  }

  lemma TogetherProper(s: seq<seq<Factor>>)
    requires forall i :: 0 <= i < |s| ==> AllProper(s[i])
    ensures AllProper(Flatten(s))
  {
    forall k | 0 <= k < |Flatten(s)|
      ensures Proper(Flatten(s)[k])
    {
      FlattenMember(s, Flatten(s)[k]);
    }
  }

  function InParentheses(ts: seq<Token>): seq<Token> {
    [Open] + ts + [Close]
  }

  function Print(f: Factor): (r: seq<Token>)
    decreases f
  {
    match f
    case Leaf(a) => [Term(a)]
    case Group(op, items) => InParentheses(PrintFrom(op, items, 0))
  }

  /** The factors from i on, with the operator in between. */
  function PrintFrom(op: Op, items: seq<Factor>, i: nat): seq<Token>
    requires i <= |items|
    decreases items, |items| - i
  {
    if i == |items| then []
    else if i + 1 == |items| then Print(items[i])
    else Print(items[i]) + [Conn(op)] + PrintFrom(op, items, i + 1)
  }

  /*
   * Printing
   */

  /** strings.Join */
  function JoinFrom(parts: seq<seq<Token>>, op: Op, i: nat): seq<Token>
    requires i <= |parts|
    decreases |parts| - i
  {
    if i == |parts| then []
    else if i + 1 == |parts| then parts[i]
    else parts[i] + [Conn(op)] + JoinFrom(parts, op, i + 1)
  }

  lemma {:induction false} JoinSnoc(parts: seq<seq<Token>>, op: Op, last: seq<Token>, i: nat, all: seq<seq<Token>>)
    requires i <= |parts| && all == parts + [last]
    ensures JoinFrom(all, op, i) == if i == |parts| then last else JoinFrom(parts, op, i) + ([Conn(op)] + last)
    decreases |parts| - i
  {
    if i < |parts| {
      JoinSnoc(parts, op, last, i + 1, all);
      assert all[i] == parts[i];
      if i + 1 < |parts| {
        Regroup(parts[i] + [Conn(op)], JoinFrom(parts, op, i + 1), [Conn(op)] + last);
      }
    }
  }

  lemma Regroup(a: seq<Token>, b: seq<Token>, c: seq<Token>)
    ensures a + (b + c) == (a + b) + c
  {}

  lemma {:induction false} PrintConcat(op: Op, a: seq<Factor>, b: seq<Factor>, i: nat, all: seq<Factor>)
    requires i < |a| && |b| > 0 && all == a + b
    ensures PrintFrom(op, all, i) == PrintFrom(op, a, i) + ([Conn(op)] + PrintFrom(op, b, 0))
    decreases |a| - i
  {
    assert all[i] == a[i];
    if i + 1 < |a| {
      PrintConcat(op, a, b, i + 1, all);
      Regroup(Print(a[i]) + [Conn(op)], PrintFrom(op, a, i + 1), [Conn(op)] + PrintFrom(op, b, 0));
    } else {
      PrintTail(op, a, b, 0, all);
      Regroup(Print(a[i]), [Conn(op)], PrintFrom(op, b, 0));
    }
  }

  lemma {:induction false} PrintTail(op: Op, a: seq<Factor>, b: seq<Factor>, i: nat, all: seq<Factor>)
    requires i <= |b| && all == a + b
    ensures PrintFrom(op, all, |a| + i) == PrintFrom(op, b, i)
    decreases |b| - i
  {
    if i < |b| {
      assert all[|a| + i] == b[i];
      PrintTail(op, a, b, i + 1, all);
    }
  }

  /** The parts gathered so far print the factors gathered so far. */
  ghost predicate Gathered(parts: seq<seq<Token>>, op: Op, factors: seq<Factor>) {
    (|parts| == 0 <==> |factors| == 0) && JoinFrom(parts, op, 0) == PrintFrom(op, factors, 0)
  }

  lemma GatheredMore(parts: seq<seq<Token>>, op: Op, factors: seq<Factor>, more: seq<Factor>)
    requires Gathered(parts, op, factors) && |more| > 0
    ensures Gathered(parts + [PrintFrom(op, more, 0)], op, factors + more)
  {
    JoinSnoc(parts, op, PrintFrom(op, more, 0), 0, parts + [PrintFrom(op, more, 0)]);
    if |factors| == 0 {
      assert factors + more == more;
    } else {
      PrintConcat(op, factors, more, 0, factors + more);
    }
  }

  /** What a list of factors prints as, if there are any. */
  function Printed(op: Op, factors: seq<Factor>): Option<seq<Token>> {
    if |factors| == 0 then None else Some(PrintFrom(op, factors, 0))
  }

  /** jsonbFilter */
  method JsonbFilter(f: Option<Filter>, op: Op) returns (out: Option<seq<Token>>)
    ensures out == if f.None? then None else Printed(op, Factors(f.value))
  {
    if f.None? {
      return None;
    }
    out := JsonbFields(f.value, op);
  }

  method JsonbFields(f: Filter, op: Op) returns (out: Option<seq<Token>>)
    ensures out == Printed(op, Factors(f))
    decreases f, 1, 0
  {
    var filters: seq<seq<Token>> := [];
    ghost var factors: seq<Factor> := [];
    if f.eq.Some? {
      GatheredMore(filters, op, factors, [Leaf(Contains(f.eq.value))]);
      filters, factors := filters + [[Term(Contains(f.eq.value))]], factors + [Leaf(Contains(f.eq.value))];
    }
    assert factors == if f.eq.Some? then [Leaf(Contains(f.eq.value))] else [];
    filters, factors := ReduceField(f, f.or, Or, filters, op, factors);
    filters, factors := ReduceField(f, f.and, And, filters, op, factors);
    if |filters| == 0 {
      return None;
    }
    return Some(JoinFrom(filters, op, 0));
  }

  /** The factors of a list of filters, if it is there. */
  function FieldFactors(list: Filters, op: Op): seq<Factor> {
    if list.List? then Grouped(op, Together(ListFactors(list.filters))) else []
  }

  /** One of the lists of a filter, if it prints as anything. */
  method ReduceField(
    ghost f: Filter, list: Filters, listOp: Op, filters: seq<seq<Token>>, op: Op, ghost factors: seq<Factor>)
    returns (more: seq<seq<Token>>, ghost moreFactors: seq<Factor>)
    requires Gathered(filters, op, factors) && (list == f.or || list == f.and)
    ensures moreFactors == factors + FieldFactors(list, listOp) && Gathered(more, op, moreFactors)
    decreases f, 0, 1
  {
    more, moreFactors := filters, factors + FieldFactors(list, listOp);
    assert FieldFactors(list, listOp) == [] ==> moreFactors == factors;
    if list.List? {
      var x := Reduce(list.filters, listOp);
      if x.Some? {
        GatheredMore(filters, op, factors, FieldFactors(list, listOp));
        more := more + [x.value];
      }
    }
  }

  /** The nested function reduce: a list of filters, in parentheses. */
  method Reduce(fs: seq<Filter>, op: Op) returns (out: Option<seq<Token>>)
    ensures var items := Together(ListFactors(fs));
            out == if |items| == 0 then None else Some(Print(Group(op, items)))
    decreases fs, 0, 0
  {
    var processed: seq<seq<Token>> := [];
    ghost var items := ListFactors(fs);
    for i := 0 to |fs|
      invariant Gathered(processed, op, FlattenTo(items, i))
    {
      var x := JsonbFields(fs[i], op);
      if x.Some? {
        GatheredMore(processed, op, FlattenTo(items, i), items[i]);
        processed := processed + [x.value];
      } else {
        assert FlattenTo(items, i) + items[i] == FlattenTo(items, i);
      }
    }
    if |processed| == 0 {
      return None;
    }
    return Some(InParentheses(JoinFrom(processed, op, 0)));
  }

  /*
   * Reading what was printed
   */

  predicate Holds(f: Factor, env: Env)
    decreases f
  {
    match f
    case Leaf(a) => env(a)
    case Group(op, items) => HoldsFrom(op, items, 0, env)
  }

  /** All, or any, of the factors from i on. */
  predicate HoldsFrom(op: Op, items: seq<Factor>, i: nat, env: Env)
    requires i <= |items|
    decreases items, |items| - i
  {
    if i == |items| then op == And
    else if op == And then Holds(items[i], env) && HoldsFrom(op, items, i + 1, env)
    else Holds(items[i], env) || HoldsFrom(op, items, i + 1, env)
  }

  /** The parser takes exactly the printed tokens, and reads a formula with the given meaning. */
  ghost predicate Reads(p: Parsed, rest: seq<Token>, meaning: Env -> bool) {
    p.Parsed? && p.rest == rest && forall env :: Eval(p.expr, env) == meaning(env)
  }

  lemma {:induction false} FactorReads(f: Factor, rest: seq<Token>)
    requires Proper(f)
    ensures Reads(ParseFactor(Print(f) + rest), rest, (env: Env) => Holds(f, env))
    decreases f
  {
    match f
    case Leaf(a) =>
      assert ([Term(a)] + rest)[1..] == rest;
    case Group(op, items) =>
      var inner := PrintFrom(op, items, 0) + ([Close] + rest);
      assert Print(f) + rest == [Open] + inner;
      assert ([Open] + inner)[1..] == inner;
      ChainReads(op, items, 0, [Close] + rest);
      assert ([Close] + rest)[1..] == rest;
  }

  lemma PrintedHead(op: Op, items: seq<Factor>, i: nat, rest: seq<Token>)
    requires i < |items|
    ensures i + 1 == |items| ==> PrintFrom(op, items, i) + rest == Print(items[i]) + rest
    ensures i + 1 < |items| ==>
              PrintFrom(op, items, i) + rest == Print(items[i]) + ([Conn(op)] + (PrintFrom(op, items, i + 1) + rest))
  {}

  lemma HoldsHead(op: Op, items: seq<Factor>, i: nat, env: Env)
    requires i < |items|
    ensures i + 1 == |items| ==> HoldsFrom(op, items, i, env) == Holds(items[i], env)
    ensures i + 1 < |items| ==>
              HoldsFrom(op, items, i, env)
              == if op == And then Holds(items[i], env) && HoldsFrom(op, items, i + 1, env)
                 else Holds(items[i], env) || HoldsFrom(op, items, i + 1, env)
  {
    assert HoldsFrom(op, items, |items|, env) == (op == And);
  }

  /** A formula for the head, and one for the tail. */
  lemma ReadsChain(op: Op, items: seq<Factor>, i: nat, p: Parsed, rest: seq<Token>)
    requires i < |items| && p.Parsed? && p.rest == rest
    requires forall env: Env ::
               Eval(p.expr, env) == if i + 1 == |items| then Holds(items[i], env)
                                    else if op == And then Holds(items[i], env) && HoldsFrom(op, items, i + 1, env)
                                    else Holds(items[i], env) || HoldsFrom(op, items, i + 1, env)
    ensures Reads(p, rest, (env: Env) => i <= |items| && HoldsFrom(op, items, i, env))
  {
    forall env: Env
      ensures Eval(p.expr, env) == HoldsFrom(op, items, i, env)
    {
      HoldsHead(op, items, i, env);
    }
  }

  /** A chain of ANDs is read by the tighter of the two rules. */
  lemma {:induction false} AndChainReads(items: seq<Factor>, i: nat, rest: seq<Token>)
    requires AllProper(items) && i < |items| && !StartsWith(rest, Conn(And))
    ensures Reads(ParseAnd(PrintFrom(And, items, i) + rest), rest,
              (env: Env) => i <= |items| && HoldsFrom(And, items, i, env))
    decreases items, |items| - i, 0
  {
    var ts := PrintFrom(And, items, i) + rest;
    PrintedHead(And, items, i, rest);
    if i + 1 == |items| {
      FactorReads(items[i], rest);
    } else {
      var tail := PrintFrom(And, items, i + 1) + rest;
      FactorReads(items[i], [Conn(And)] + tail);
      assert ([Conn(And)] + tail)[1..] == tail;
      AndChainReads(items, i + 1, rest);
    }
    ReadsChain(And, items, i, ParseAnd(ts), rest);
  }

  /** A chain of ORs of factors, and what follows it. */
  lemma {:induction false} ChainReads(op: Op, items: seq<Factor>, i: nat, rest: seq<Token>)
    requires AllProper(items) && i < |items| && (forall c :: !StartsWith(rest, Conn(c)))
    ensures Reads(ParseOr(PrintFrom(op, items, i) + rest), rest,
              (env: Env) => i <= |items| && HoldsFrom(op, items, i, env))
    decreases items, |items| - i, 1
  {
    assert !StartsWith(rest, Conn(And)) && !StartsWith(rest, Conn(Or));
    if op == And {
      AndChainReads(items, i, rest);
    } else {
      OrChainReads(items, i, rest);
    }
  }

  lemma {:induction false} OrChainReads(items: seq<Factor>, i: nat, rest: seq<Token>)
    requires AllProper(items) && i < |items| && !StartsWith(rest, Conn(And)) && !StartsWith(rest, Conn(Or))
    ensures Reads(ParseOr(PrintFrom(Or, items, i) + rest), rest,
              (env: Env) => i <= |items| && HoldsFrom(Or, items, i, env))
    decreases items, |items| - i, 0
  {
    var ts := PrintFrom(Or, items, i) + rest;
    PrintedHead(Or, items, i, rest);
    if i + 1 == |items| {
      FactorReads(items[i], rest);
      assert ParseAnd(ts) == ParseFactor(ts);
    } else {
      var tail := PrintFrom(Or, items, i + 1) + rest;
      var after := [Conn(Or)] + tail;
      assert ts == Print(items[i]) + after;
      FactorReads(items[i], after);
      assert !StartsWith(after, Conn(And)) && after[1..] == tail;
      assert ParseAnd(ts) == ParseFactor(ts);
      OrChainReads(items, i + 1, rest);
    }
    ReadsChain(Or, items, i, ParseOr(ts), rest);
  }

  /*
   * The factors of a filter hold when the filter does
   */

  function HoldsAll(factors: seq<Factor>, env: Env): (r: seq<bool>)
    ensures |r| == |factors|
  {
    seq(|factors|, i requires 0 <= i < |factors| => Holds(factors[i], env))
  }

  lemma {:induction false} HoldsCombined(op: Op, factors: seq<Factor>, i: nat, env: Env)
    requires i <= |factors|
    ensures HoldsFrom(op, factors, i, env)
            <==> if op == And then forall k :: i <= k < |factors| ==> Holds(factors[k], env)
                 else exists k :: i <= k < |factors| && Holds(factors[k], env)
    decreases |factors| - i
  {
    if i < |factors| {
      HoldsCombined(op, factors, i + 1, env);
    }
  }

  /** The value of a list of factors. */
  function FactorsValue(op: Op, factors: seq<Factor>, env: Env): Option<bool> {
    Combine(op, HoldsAll(factors, env))
  }

  lemma FactorsValueIs(op: Op, factors: seq<Factor>, env: Env)
    ensures FactorsValue(op, factors, env) == if |factors| == 0 then None else Some(HoldsFrom(op, factors, 0, env))
  {
    HoldsCombined(op, factors, 0, env);
    var values := HoldsAll(factors, env);
    assert forall k :: 0 <= k < |factors| ==> values[k] == Holds(factors[k], env);
  }

  lemma AllOrAny(values: seq<bool>)
    ensures Combine(And, values) == if |values| == 0 then None else Some(false !in values)
    ensures Combine(Or, values) == if |values| == 0 then None else Some(true in values)
  {}

  /** Values, some of which are themselves combinations by the same operator. */
  lemma CombineNested(op: Op, a: seq<bool>, b: seq<bool>)
    ensures Combine(op, a + Present(Combine(op, b))) == Combine(op, a + b)
  {
    AllOrAny(b);
    AllOrAny(a + Present(Combine(op, b)));
    AllOrAny(a + b);
  }

  lemma HoldsAllConcat(a: seq<Factor>, b: seq<Factor>, env: Env)
    ensures HoldsAll(a + b, env) == HoldsAll(a, env) + HoldsAll(b, env)
  {}

  /** When every part of a list has the value of its factors, so has the list. */
  lemma {:induction false} ListMeans(op: Op, vs: seq<Option<bool>>, parts: seq<seq<Factor>>, n: nat, env: Env)
    requires n <= |vs| == |parts| && forall i :: 0 <= i < |vs| ==> vs[i] == FactorsValue(op, parts[i], env)
    ensures Combine(op, FlattenTo(Map(Present, vs), n)) == FactorsValue(op, FlattenTo(parts, n), env)
  {
    if n > 0 {
      ListMeans(op, vs, parts, n - 1, env);
      var values, factors, last := FlattenTo(Map(Present, vs), n - 1), FlattenTo(parts, n - 1), parts[n - 1];
      AppendMeans(op, values, HoldsAll(factors, env), HoldsAll(last, env));
      HoldsAllConcat(factors, last, env);
      assert Map(Present, vs)[n - 1] == Present(Combine(op, HoldsAll(last, env)));
    }
  }

  /** Appending the same to lists of the same value. */
  lemma AppendMeans(op: Op, a: seq<bool>, b: seq<bool>, more: seq<bool>)
    requires Combine(op, a) == Combine(op, b)
    ensures Combine(op, a + Present(Combine(op, more))) == Combine(op, b + more)
  {
    CombineNested(op, a, more);
    CombineNested(op, more, a);
    CombineNested(op, more, b);
    CombineSwap(op, a, more);
    CombineSwap(op, b, more);
  }

  lemma CombineSwap(op: Op, a: seq<bool>, b: seq<bool>)
    ensures Combine(op, a + b) == Combine(op, b + a)
  {
    AllOrAny(a + b);
    AllOrAny(b + a);
    assert true in a + b <==> true in b + a;
    assert false in a + b <==> false in b + a;
  }

  /** A filter has the value of its factors, combined by the operator of the list it is in. */
  lemma {:induction false} FilterMeans(f: Filter, op: Op, env: Env)
    ensures Value(f, op, env) == FactorsValue(op, Factors(f), env)
    decreases f
  {
    var leaf: seq<Factor> := if f.eq.Some? then [Leaf(Contains(f.eq.value))] else [];
    var ors, ands := FieldFactors(f.or, Or), FieldFactors(f.and, And);
    if f.or.List? {
      ListOfFilters(f.or.filters, Or, env);
    }
    if f.and.List? {
      ListOfFilters(f.and.filters, And, env);
    }
    assert HoldsAll(leaf, env) == Present(if f.eq.Some? then Some(env(Contains(f.eq.value))) else None);
    HoldsAllConcat(leaf, ors, env);
    HoldsAllConcat(leaf + ors, ands, env);
  }

  lemma {:induction false} ListOfFilters(fs: seq<Filter>, op: Op, env: Env)
    ensures HoldsAll(Grouped(op, Together(ListFactors(fs))), env)
            == Present(Combine(op, AllPresent(ListValues(fs, op, env))))
    decreases fs
  {
    var vs, parts := ListValues(fs, op, env), ListFactors(fs);
    forall i | 0 <= i < |fs|
      ensures vs[i] == FactorsValue(op, parts[i], env)
    {
      FilterMeans(fs[i], op, env);
    }
    ListMeans(op, vs, parts, |fs|, env);
    GroupMeans(op, Together(parts), env);
  }

  lemma GroupMeans(op: Op, items: seq<Factor>, env: Env)
    requires AllProper(items)
    ensures HoldsAll(Grouped(op, items), env) == Present(FactorsValue(op, items, env))
  {
    FactorsValueIs(op, items, env);
  }

  /** A clause that SQL reads in full, as a formula with the given meaning. */
  ghost predicate Clause(ts: seq<Token>, meaning: Env -> bool) {
    Reads(ParseOr(ts), [], meaning)
  }

  /**
   * What jsonbFilter prints is read with the value of the filter, at any depth;
   * it prints nothing when there is no value.
   */
  lemma PrintedKeepsMeaning(f: Filter, op: Op)
    ensures Printed(op, Factors(f)).None? <==> forall env :: Value(f, op, env).None?
    ensures Printed(op, Factors(f)).Some? ==>
              Clause(Printed(op, Factors(f)).value, (env: Env) => Value(f, op, env) == Some(true))
  {
    var factors := Factors(f);
    forall env
      ensures Value(f, op, env) == if |factors| == 0 then None else Some(HoldsFrom(op, factors, 0, env))
    {
      FilterMeans(f, op, env);
      FactorsValueIs(op, factors, env);
    }
    if |factors| > 0 {
      ChainReads(op, factors, 0, []);
      assert PrintFrom(op, factors, 0) + [] == PrintFrom(op, factors, 0);
    }
    var env: Env := _ => true;
    assert Value(f, op, env).None? <==> |factors| == 0;
  }

  /*
   * Geometries, and the whole clause
   */

  /** A line or a polygon is dropped when it has no coordinates. */
  datatype Shape = Shape(id: nat, coordinates: nat)

  datatype Geometry = Geometry(point: Option<nat>, linestring: Option<Shape>, polygon: Option<Shape>)

  /** The terms that are there. */
  function PresentTerms(terms: seq<Option<seq<Token>>>, n: nat): seq<seq<Token>>
    requires n <= |terms|
  {
    if n == 0 then [] else
      PresentTerms(terms, n - 1) + if terms[n - 1].Some? then [terms[n - 1].value] else []
  }

  method Join(op: Op, terms: seq<Option<seq<Token>>>) returns (out: Option<seq<Token>>)
    ensures var present := PresentTerms(terms, |terms|);
            out == if |present| == 0 then None else Some(JoinFrom(present, op, 0))
  {
    var present: seq<seq<Token>> := [];
    for i := 0 to |terms|
      invariant present == PresentTerms(terms, i)
    {
      if terms[i].Some? {
        present := present + [terms[i].value];
      }
    }
    if |present| == 0 {
      return None;
    }
    return Some(JoinFrom(present, op, 0));
  }

  function ShapeFactors(s: Option<Shape>): seq<Factor> {
    if s.Some? && s.value.coordinates > 0 then [Leaf(Intersects(s.value.id))] else []
  }

  /** The tests of a geometry filter, one for each of its fields. */
  function GeometryFactors(g: Option<Geometry>): seq<Factor> {
    if g.None? then [] else
      (if g.value.point.Some? then [Leaf(Intersects(g.value.point.value))] else [])
      + ShapeFactors(g.value.linestring) + ShapeFactors(g.value.polygon)
  }

  function ShapeTerm(s: Option<Shape>): Option<seq<Token>> {
    if s.Some? && s.value.coordinates > 0 then Some([Term(Intersects(s.value.id))]) else None
  }

  method GisGeometry(g: Option<Geometry>, op: Op) returns (out: Option<seq<Token>>)
    ensures out == Printed(op, GeometryFactors(g))
  {
    if g.None? {
      return None;
    }
    var point := if g.value.point.Some? then Some([Term(Intersects(g.value.point.value))]) else None;
    var linestring, polygon := ShapeTerm(g.value.linestring), ShapeTerm(g.value.polygon);
    out := Join(op, [point, linestring, polygon]);
    GeometryTerms(op, g.value, [point, linestring, polygon]);
  }

  lemma GeometryTerms(op: Op, g: Geometry, terms: seq<Option<seq<Token>>>)
    requires |terms| == 3 && terms[1] == ShapeTerm(g.linestring) && terms[2] == ShapeTerm(g.polygon)
    requires terms[0] == if g.point.Some? then Some([Term(Intersects(g.point.value))]) else None
    ensures Gathered(PresentTerms(terms, 3), op, GeometryFactors(Some(g)))
  {
    var one: seq<Factor> := if g.point.Some? then [Leaf(Intersects(g.point.value))] else [];
    var two := one + ShapeFactors(g.linestring);
    assert PresentTerms(terms, 0) == [];
    assert PresentTerms(terms, 1) == if g.point.Some? then [[Term(Intersects(g.point.value))]] else [];
    assert Gathered(PresentTerms(terms, 1), op, one);
    AnotherTerm(PresentTerms(terms, 1), op, one, g.linestring);
    AnotherTerm(PresentTerms(terms, 2), op, two, g.polygon);
  }

  lemma AnotherTerm(parts: seq<seq<Token>>, op: Op, factors: seq<Factor>, s: Option<Shape>)
    requires Gathered(parts, op, factors)
    ensures Gathered(parts + (if ShapeTerm(s).Some? then [ShapeTerm(s).value] else []), op, factors + ShapeFactors(s))
  {
    if ShapeTerm(s).Some? {
      GatheredMore(parts, op, factors, ShapeFactors(s));
      assert PrintFrom(op, ShapeFactors(s), 0) == ShapeTerm(s).value;
    } else {
      assert parts + [] == parts && factors + [] == factors;
    }
  }

  /** The tests of a manifest filter. */
  function FilterFactors(f: Option<Filter>): (r: seq<Factor>)
    ensures AllProper(r)
  {
    if f.None? then [] else Factors(f.value)
  }

  /** The tokens of the clause: the geometries are not put in parentheses. */
  function WhereTokens(gs: seq<Factor>, js: seq<Factor>): Option<seq<Token>> {
    if |gs| == 0 then Printed(And, js)
    else if |js| == 0 then Printed(Or, gs)
    else Some(PrintFrom(Or, gs, 0) + [Conn(And)] + PrintFrom(And, js, 0))
  }

  method Where(filter: Option<Filter>, geometry: Option<Geometry>) returns (out: Option<seq<Token>>)
    ensures out == WhereClause(filter, geometry)
  {
    var geom := GisGeometry(geometry, Or);
    var json := JsonbFilter(filter, And);
    out := Join(And, [geom, json]);
    TwoTerms(geom, json, [geom, json]);
  }

  lemma TwoTerms(a: Option<seq<Token>>, b: Option<seq<Token>>, terms: seq<Option<seq<Token>>>)
    requires terms == [a, b]
    ensures PresentTerms(terms, |terms|)
            == (if a.Some? then [a.value] else []) + (if b.Some? then [b.value] else [])
  {
    assert PresentTerms(terms, 0) == [];
    assert PresentTerms(terms, 1) == if a.Some? then [a.value] else [];
  }

  predicate Drawn(s: Option<Shape>) {
    s.Some? && s.value.coordinates > 0
  }

  /** How many geometries there are to test. */
  function GeometryCount(g: Option<Geometry>): nat {
    if g.None? then 0 else
      (if g.value.point.Some? then 1 else 0)
      + (if Drawn(g.value.linestring) then 1 else 0) + (if Drawn(g.value.polygon) then 1 else 0)
  }

  predicate SomeGeometry(g: Option<Geometry>, env: Env) {
    g.Some? &&
    (|| (g.value.point.Some? && env(Intersects(g.value.point.value)))
     || (Drawn(g.value.linestring) && env(Intersects(g.value.linestring.value.id)))
     || (Drawn(g.value.polygon) && env(Intersects(g.value.polygon.value.id))))
  }

  /** The filter says something about manifests. */
  ghost predicate Tests(filter: Option<Filter>) {
    filter.Some? && exists env: Env :: Value(filter.value, And, env).Some?
  }

  /** What the clause should say: some geometry, when there are any, and the filter, when it has a value. */
  predicate Intended(filter: Option<Filter>, geometry: Option<Geometry>, env: Env) {
    && (GeometryCount(geometry) == 0 || SomeGeometry(geometry, env))
    && (filter.None? || Value(filter.value, And, env) != Some(false))
  }

  function Meaning(filter: Option<Filter>, geometry: Option<Geometry>): Env -> bool {
    (env: Env) => Intended(filter, geometry, env)
  }

  lemma GeometryMeans(g: Option<Geometry>, env: Env)
    ensures |GeometryFactors(g)| == GeometryCount(g)
    ensures HoldsFrom(Or, GeometryFactors(g), 0, env) <==> SomeGeometry(g, env)
  {
    var gs := GeometryFactors(g);
    HoldsCombined(Or, gs, 0, env);
    if g.Some? {
      var point: seq<Factor> := if g.value.point.Some? then [Leaf(Intersects(g.value.point.value))] else [];
      var line, polygon := ShapeFactors(g.value.linestring), ShapeFactors(g.value.polygon);
      assert gs == point + line + polygon;
      assert g.value.point.Some? ==> gs[0] == point[0];
      assert Drawn(g.value.linestring) ==> gs[|point|] == line[0];
      assert Drawn(g.value.polygon) ==> gs[|point| + |line|] == polygon[0];
      assert forall k :: 0 <= k < |gs| ==>
          gs[k] == if k < |point| then point[k] else if k < |point| + |line| then line[k - |point|]
                   else polygon[k - |point| - |line|];
    }
  }

  lemma FilterHolds(filter: Option<Filter>, env: Env)
    ensures Tests(filter) <==> |FilterFactors(filter)| > 0
    ensures HoldsFrom(And, FilterFactors(filter), 0, env)
            <==> filter.None? || Value(filter.value, And, env) != Some(false)
  {
    if filter.Some? {
      forall e: Env
        ensures Value(filter.value, And, e).Some? <==> |FilterFactors(filter)| > 0
      {
        FilterMeans(filter.value, And, e);
        FactorsValueIs(And, FilterFactors(filter), e);
      }
      FilterMeans(filter.value, And, env);
      FactorsValueIs(And, FilterFactors(filter), env);
      assert Value(filter.value, And, env).Some? <==> |FilterFactors(filter)| > 0;
    }
  }

  /** The same, in terms of the factors that are printed. */
  predicate BothHold(gs: seq<Factor>, js: seq<Factor>, env: Env) {
    (|gs| == 0 || HoldsFrom(Or, gs, 0, env)) && HoldsFrom(And, js, 0, env)
  }

  function BothMeaning(gs: seq<Factor>, js: seq<Factor>): Env -> bool {
    (env: Env) => BothHold(gs, js, env)
  }

  lemma IntendedIs(filter: Option<Filter>, geometry: Option<Geometry>, env: Env)
    ensures Intended(filter, geometry, env) <==> BothHold(GeometryFactors(geometry), FilterFactors(filter), env)
  {
    GeometryMeans(geometry, env);
    FilterHolds(filter, env);
  }

  /** What the clause says: the filter belongs to the last geometry only. */
  predicate Actual(gs: seq<Factor>, js: seq<Factor>, i: nat, env: Env)
    requires i < |gs|
    decreases |gs| - i
  {
    if i + 1 == |gs| then Holds(gs[i], env) && HoldsFrom(And, js, 0, env)
    else Holds(gs[i], env) || Actual(gs, js, i + 1, env)
  }

  lemma HoldsTail(op: Op, g: Factor, js: seq<Factor>, i: nat, env: Env)
    requires i <= |js|
    ensures HoldsFrom(op, [g] + js, i + 1, env) == HoldsFrom(op, js, i, env)
    decreases |js| - i
  {
    if i < |js| {
      HoldsTail(op, g, js, i + 1, env);
      assert ([g] + js)[i + 1] == js[i];
    }
  }

  lemma {:induction false} MixedReads(gs: seq<Factor>, js: seq<Factor>, i: nat)
    requires AllProper(gs) && AllProper(js) && |js| > 0 && i < |gs|
    ensures Reads(ParseOr(PrintFrom(Or, gs, i) + ([Conn(And)] + PrintFrom(And, js, 0))), [],
              (env: Env) => i < |gs| && Actual(gs, js, i, env))
    decreases |gs| - i
  {
    var after := [Conn(And)] + PrintFrom(And, js, 0);
    var ts := PrintFrom(Or, gs, i) + after;
    if i + 1 == |gs| {
      var chain := [gs[i]] + js;
      PrintConcat(And, [gs[i]], js, 0, chain);
      assert ts == PrintFrom(And, chain, 0) + [];
      assert AllProper(chain);
      AndChainReads(chain, 0, []);
      forall env: Env
        ensures HoldsFrom(And, chain, 0, env) == Actual(gs, js, i, env)
      {
        HoldsTail(And, gs[i], js, 0, env);
      }
    } else {
      var tail := PrintFrom(Or, gs, i + 1) + after;
      assert ts == Print(gs[i]) + ([Conn(Or)] + tail);
      FactorReads(gs[i], [Conn(Or)] + tail);
      assert ([Conn(Or)] + tail)[1..] == tail;
      var p := ParseFactor(ts);
      assert ParseAnd(ts) == p;
      MixedReads(gs, js, i + 1);
      var q := ParseOr(tail);
      assert ParseOr(ts) == Parsed(Either(p.expr, q.expr), []);
      forall env: Env
        ensures Eval(Either(p.expr, q.expr), env) == Actual(gs, js, i, env)
      {
        assert Eval(p.expr, env) == Holds(gs[i], env);
        assert Eval(q.expr, env) == Actual(gs, js, i + 1, env);
      }
    }
  }

  /** The whole clause is read as Actual says, and has no tokens when there is nothing to test. */
  lemma WhereReads(gs: seq<Factor>, js: seq<Factor>)
    requires AllProper(gs) && AllProper(js)
    ensures WhereTokens(gs, js).None? <==> |gs| == 0 && |js| == 0
    ensures |gs| == 0 && |js| > 0 ==> Clause(WhereTokens(gs, js).value, (env: Env) => HoldsFrom(And, js, 0, env))
    ensures |gs| > 0 && |js| == 0 ==> Clause(WhereTokens(gs, js).value, (env: Env) => HoldsFrom(Or, gs, 0, env))
    ensures |gs| > 0 && |js| > 0 ==> Clause(WhereTokens(gs, js).value, (env: Env) => 0 < |gs| && Actual(gs, js, 0, env))
  {
    if |gs| == 0 {
      if |js| > 0 {
        ChainReads(And, js, 0, []);
        assert PrintFrom(And, js, 0) + [] == PrintFrom(And, js, 0);
      }
    } else if |js| == 0 {
      ChainReads(Or, gs, 0, []);
      assert PrintFrom(Or, gs, 0) + [] == PrintFrom(Or, gs, 0);
    } else {
      MixedReads(gs, js, 0);
      Regroup(PrintFrom(Or, gs, 0), [Conn(And)], PrintFrom(And, js, 0));
    }
  }

  /** Only tests of manifests, at any depth. */
  predicate OnlyManifests(f: Factor) {
    match f
    case Leaf(a) => a.Contains?
    case Group(_, items) => forall i :: 0 <= i < |items| ==> OnlyManifests(items[i])
  }

  predicate AllManifests(fs: seq<Factor>) {
    forall i :: 0 <= i < |fs| ==> OnlyManifests(fs[i])
  }

  lemma {:induction false} FilterOnlyManifests(f: Filter)
    ensures AllManifests(Factors(f))
    decreases f
  {
    if f.or.List? {
      ListOnlyManifests(f.or.filters);
    }
    if f.and.List? {
      ListOnlyManifests(f.and.filters);
    }
  }

  lemma {:induction false} ListOnlyManifests(fs: seq<Filter>)
    ensures AllManifests(Together(ListFactors(fs)))
    decreases fs
  {
    var parts := ListFactors(fs);
    forall i | 0 <= i < |fs|
      ensures AllManifests(parts[i])
    {
      FilterOnlyManifests(fs[i]);
    }
    forall k | 0 <= k < |Flatten(parts)|
      ensures OnlyManifests(Flatten(parts)[k])
    {
      FlattenMember(parts, Flatten(parts)[k]);
    }
  }

  predicate IsGeometry(a: Atom) {
    a.Intersects?
  }

  /** Where only geometries hold, no test of a manifest does. */
  lemma {:induction false} NoneHolds(f: Factor)
    requires Proper(f) && OnlyManifests(f)
    ensures !Holds(f, IsGeometry)
    decreases f
  {
    if f.Group? {
      NoneHoldsFrom(f.op, f.items, 0);
    }
  }

  lemma {:induction false} NoneHoldsFrom(op: Op, items: seq<Factor>, i: nat)
    requires AllProper(items) && i < |items| && forall k :: 0 <= k < |items| ==> OnlyManifests(items[k])
    ensures !HoldsFrom(op, items, i, IsGeometry)
    decreases items, |items| - i
  {
    NoneHolds(items[i]);
    HoldsHead(op, items, i, IsGeometry);
    if i + 1 < |items| {
      NoneHoldsFrom(op, items, i + 1);
    }
  }

  /** The tokens of the clause of a filter and a geometry. */
  function WhereClause(filter: Option<Filter>, geometry: Option<Geometry>): Option<seq<Token>> {
    WhereTokens(GeometryFactors(geometry), FilterFactors(filter))
  }

  lemma FactorsMeanBoth(gs: seq<Factor>, js: seq<Factor>)
    requires AllProper(gs) && AllProper(js) && AllManifests(js) && (|gs| > 0 || |js| > 0)
    requires forall i :: 0 <= i < |gs| ==> gs[i].Leaf? && gs[i].atom.Intersects?
    ensures WhereTokens(gs, js).Some?
    ensures Clause(WhereTokens(gs, js).value, BothMeaning(gs, js)) <==> |gs| <= 1 || |js| == 0
  {
    WhereReads(gs, js);
    if |gs| > 1 && |js| > 0 {
      var env: Env := IsGeometry;
      NoneHoldsFrom(And, js, 0);
      assert Holds(gs[0], env);
      assert Actual(gs, js, 0, env) && !BothHold(gs, js, env);
      assert Eval(ParseOr(WhereTokens(gs, js).value).expr, env) != BothHold(gs, js, env);
    } else if |gs| == 1 && |js| > 0 {
      forall env: Env
        ensures Actual(gs, js, 0, env) == BothHold(gs, js, env)
      {
        HoldsHead(Or, gs, 0, env);
      }
    }
  }

  lemma ClauseOfFactors(gs: seq<Factor>, js: seq<Factor>, ts: seq<Token>)
    requires AllProper(gs) && AllProper(js) && AllManifests(js) && WhereTokens(gs, js) == Some(ts)
    requires forall i :: 0 <= i < |gs| ==> gs[i].Leaf? && gs[i].atom.Intersects?
    ensures Clause(ts, BothMeaning(gs, js)) <==> |gs| <= 1 || |js| == 0
  {
    WhereReads(gs, js);
    FactorsMeanBoth(gs, js);
  }

  lemma SameMeaning(ts: seq<Token>, a: Env -> bool, b: Env -> bool)
    requires forall env :: a(env) == b(env)
    ensures Clause(ts, a) <==> Clause(ts, b)
  {}

  lemma SameClause(filter: Option<Filter>, geometry: Option<Geometry>, ts: seq<Token>)
    ensures Clause(ts, Meaning(filter, geometry))
            <==> Clause(ts, BothMeaning(GeometryFactors(geometry), FilterFactors(filter)))
  {
    forall env: Env
      ensures Intended(filter, geometry, env) == BothHold(GeometryFactors(geometry), FilterFactors(filter), env)
    {
      IntendedIs(filter, geometry, env);
    }
    SameMeaning(ts, Meaning(filter, geometry), BothMeaning(GeometryFactors(geometry), FilterFactors(filter)));
  }

  lemma FactorCounts(filter: Option<Filter>, geometry: Option<Geometry>)
    ensures |GeometryFactors(geometry)| == GeometryCount(geometry)
    ensures Tests(filter) <==> |FilterFactors(filter)| > 0
  {
    GeometryMeans(geometry, IsGeometry);
    FilterHolds(filter, IsGeometry);
  }

  lemma NoClause(filter: Option<Filter>, geometry: Option<Geometry>)
    ensures WhereClause(filter, geometry).None? <==> GeometryCount(geometry) == 0 && !Tests(filter)
  {
    FactorCounts(filter, geometry);
    WhereReads(GeometryFactors(geometry), FilterFactors(filter));
  }

  lemma ManifestTests(filter: Option<Filter>)
    ensures AllManifests(FilterFactors(filter))
  {
    if filter.Some? {
      FilterOnlyManifests(filter.value);
    }
  }

  lemma ClauseExact(filter: Option<Filter>, geometry: Option<Geometry>, ts: seq<Token>)
    requires WhereClause(filter, geometry) == Some(ts)
    ensures Clause(ts, Meaning(filter, geometry)) <==> GeometryCount(geometry) <= 1 || !Tests(filter)
  {
    var gs, js := GeometryFactors(geometry), FilterFactors(filter);
    assert Clause(ts, BothMeaning(gs, js)) <==> |gs| <= 1 || |js| == 0 by {
      ManifestTests(filter);
      ClauseOfFactors(gs, js, ts);
    }
    FactorCounts(filter, geometry);
    SameClause(filter, geometry, ts);
  }

  /**
   * The clause means geometry AND filter, whatever the tests say, if and only
   * if there is at most one geometry or no filter. There is no clause exactly
   * when there is nothing to test.
   */
  lemma WhereMeansBoth(filter: Option<Filter>, geometry: Option<Geometry>)
    ensures WhereClause(filter, geometry).None? <==> GeometryCount(geometry) == 0 && !Tests(filter)
    ensures WhereClause(filter, geometry).Some? ==>
              (Clause(WhereClause(filter, geometry).value, Meaning(filter, geometry))
               <==> GeometryCount(geometry) <= 1 || !Tests(filter))
  {
    NoClause(filter, geometry);
    if WhereClause(filter, geometry).Some? {
      ClauseExact(filter, geometry, WhereClause(filter, geometry).value);
    }
  }

  /** A point or a polygon, and a filter: a manifest at the point is found although the filter does not hold. */
  lemma TwoGeometries() returns (filter: Option<Filter>, geometry: Option<Geometry>, env: Env)
    ensures GeometryCount(geometry) == 2 && filter == Some(Filter(Some(0), Absent, Absent))
    ensures WhereClause(filter, geometry) == Some(
              [Term(Intersects(1)), Conn(Or), Term(Intersects(2)), Conn(And), Term(Contains(0))])
    ensures ParseOr(WhereClause(filter, geometry).value).Parsed?
    ensures Eval(ParseOr(WhereClause(filter, geometry).value).expr, env) && !Intended(filter, geometry, env)
  {
    filter, geometry := Some(Filter(Some(0), Absent, Absent)), Some(Geometry(Some(1), None, Some(Shape(2, 4))));
    env := a => a == Intersects(1);
    var gs, js := GeometryFactors(geometry), FilterFactors(filter);
    assert gs == [Leaf(Intersects(1)), Leaf(Intersects(2))];
    assert js == [Leaf(Contains(0))];
    assert PrintFrom(Or, gs, 1) == [Term(Intersects(2))];
    assert PrintFrom(Or, gs, 0) == [Term(Intersects(1)), Conn(Or), Term(Intersects(2))];
    assert PrintFrom(And, js, 0) == [Term(Contains(0))];
    assert PrintFrom(Or, gs, 0) + [Conn(And)] + PrintFrom(And, js, 0)
        == [Term(Intersects(1)), Conn(Or), Term(Intersects(2)), Conn(And), Term(Contains(0))];
    WhereReads(gs, js);
    assert Holds(gs[0], env) && Actual(gs, js, 0, env);
    assert Value(filter.value, And, env) == Some(false) by {
      FilterMeans(filter.value, And, env);
      FactorsValueIs(And, js, env);
      HoldsCombined(And, js, 0, env);
      assert !Holds(js[0], env);
    }
  }
}
