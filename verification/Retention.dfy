/** Grandfather-father-son retention. A finished set is identified by its time in whole seconds (its
    name spells exactly that); a rule keeps the newest set of each of the last `count` buckets. */
module Retention {
  import opened IntSets
  import opened Sorting

  datatype Rule = Rule(count: nat, bucket: int -> int)

  /** Days, ISO weeks and calendar months all number time in order; nothing else is used of them. */
  ghost predicate Monotone(b: int -> int) {
    forall x, y :: x <= y ==> b(x) <= b(y)
  }

  ghost predicate RulesOK(rules: seq<Rule>) {
    forall r :: r in rules ==> Monotone(r.bucket)
  }

  ghost predicate Newest(s: set<int>, n: int) {
    n in s && forall m :: m in s ==> m <= n
  }

  /** The newest of its bucket. */
  ghost predicate Leads(s: set<int>, n: int, b: int -> int) {
    n in s && forall m :: m in s && b(m) == b(n) ==> m <= n
  }

  function NewerBuckets(s: set<int>, n: int, b: int -> int): set<int> {
    set m | m in s && b(m) > b(n) :: b(m)
  }

  ghost predicate KeptBy(s: set<int>, n: int, r: Rule) {
    Leads(s, n, r.bucket) && |NewerBuckets(s, n, r.bucket)| < r.count
  }

  ghost predicate Kept(s: set<int>, n: int, rules: seq<Rule>) {
    Newest(s, n) || exists r :: r in rules && KeptBy(s, n, r)
  }

  ghost function Keep(s: set<int>, rules: seq<Rule>): set<int> {
    set n | n in s && Kept(s, n, rules)
  }

  lemma Leader(s: set<int>, n: int, b: int -> int) returns (lead: int)
    requires n in s
    ensures Leads(s, lead, b) && b(lead) == b(n) && n <= lead
    ensures NewerBuckets(s, lead, b) == NewerBuckets(s, n, b)
  {
    var same := set m | m in s && b(m) == b(n);
    assert n in same;
    lead := Maximum(same);
    forall m | m in s && b(m) == b(lead)
      ensures m <= lead
    {
      assert m in same;
    }
  }

  function SetOf(times: seq<int>): set<int> {
    set t | t in times
  }

  // ---- what a smaller store still sees --------------------------------------------------------------

  /** A store that lost only sets no rule keeps counts newer buckets alike, up to the rule's limit. */
  lemma FewBucketsKept(s: set<int>, k: set<int>, m: int, r: Rule)
    requires Monotone(r.bucket) && k <= s
    requires forall x :: KeptBy(s, x, r) ==> x in k
    requires |NewerBuckets(s, m, r.bucket)| <= r.count
    ensures NewerBuckets(k, m, r.bucket) == NewerBuckets(s, m, r.bucket)
  {
    var b := r.bucket;
    var newer := NewerBuckets(s, m, b);
    forall v | v in newer
      ensures v in NewerBuckets(k, m, b)
    {
      var x :| x in s && b(x) > b(m) && b(x) == v;
      var lead := Leader(s, x, b);
      assert NewerBuckets(s, lead, b) <= newer - {v};
      SizeMonotone(NewerBuckets(s, lead, b), newer - {v});
      assert lead in k;
    }
  }

  lemma {:induction false} ManyBucketsKept(s: set<int>, k: set<int>, m: int, r: Rule)
    requires Monotone(r.bucket) && k <= s
    requires forall x :: KeptBy(s, x, r) ==> x in k
    requires |NewerBuckets(s, m, r.bucket)| >= r.count
    ensures |NewerBuckets(k, m, r.bucket)| >= r.count
    decreases |NewerBuckets(s, m, r.bucket)|
  {
    var b := r.bucket;
    var newer := NewerBuckets(s, m, b);
    if |newer| == r.count {
      FewBucketsKept(s, k, m, r);
    } else {
      var oldest := Minimum(newer);
      var x :| x in s && b(x) > b(m) && b(x) == oldest;
      assert NewerBuckets(s, x, b) == newer - {oldest};
      ManyBucketsKept(s, k, x, r);
      SizeMonotone(NewerBuckets(k, x, b), NewerBuckets(k, m, b));
    }
  }

  lemma KeptByStable(s: set<int>, k: set<int>, m: int, r: Rule)
    requires Monotone(r.bucket) && k <= s
    requires forall x :: KeptBy(s, x, r) ==> x in k
    ensures KeptBy(k, m, r) <==> KeptBy(s, m, r)
  {
    var b := r.bucket;
    if |NewerBuckets(s, m, b)| < r.count {
      FewBucketsKept(s, k, m, r);
      if m in s {
        var lead := Leader(s, m, b);
        assert KeptBy(s, lead, r);
      }
    } else {
      ManyBucketsKept(s, k, m, r);
    }
  }

  /** Deleting any of the sets the rules do not keep changes nothing about which sets they keep. */
  lemma KeepStable(s: set<int>, k: set<int>, rules: seq<Rule>)
    requires RulesOK(rules) && Keep(s, rules) <= k <= s
    ensures Keep(k, rules) == Keep(s, rules)
  {
    forall r, x | r in rules && KeptBy(s, x, r)
      ensures x in k
    {
      assert x in Keep(s, rules);
    }
    if s != {} {
      var top := Maximum(s);
      assert Newest(s, top) && top in Keep(s, rules);
    }
    forall m
      ensures m in Keep(k, rules) <==> m in Keep(s, rules)
    {
      forall r | r in rules
        ensures KeptBy(k, m, r) <==> KeptBy(s, m, r)
      {
        KeptByStable(s, k, m, r);
      }
      assert Newest(k, m) <==> Newest(s, m);
      if m in Keep(s, rules) {
        assert m in k;
      }
    }
  }

  lemma AddingNewest(s: set<int>, n: int, rules: seq<Rule>)
    requires RulesOK(rules) && forall m :: m in s ==> m < n
    ensures Keep(s + {n}, rules) <= Keep(s, rules) + {n}
  {
    forall m | m in Keep(s + {n}, rules) && m != n
      ensures m in Keep(s, rules)
    {
      assert !Newest(s + {n}, m);
      var r :| r in rules && KeptBy(s + {n}, m, r);
      SizeMonotone(NewerBuckets(s, m, r.bucket), NewerBuckets(s + {n}, m, r.bucket));
      assert KeptBy(s, m, r);
    }
  }

  /** CONFLUENCE: pruning, then taking a newer set and pruning again, keeps what one prune would. */
  lemma PruneThenAdd(s: set<int>, n: int, rules: seq<Rule>)
    requires RulesOK(rules) && forall m :: m in s ==> m < n
    ensures Keep(Keep(s, rules) + {n}, rules) == Keep(s + {n}, rules)
  {
    AddingNewest(s, n, rules);
    KeepStable(s + {n}, Keep(s, rules) + {n}, rules);
  }

  lemma KeepIdempotent(s: set<int>, rules: seq<Rule>)
    requires RulesOK(rules)
    ensures Keep(Keep(s, rules), rules) == Keep(s, rules)
  {
    KeepStable(s, Keep(s, rules), rules);
  }

  /** The store after backing up and pruning at each of these times. */
  ghost function Nightly(times: seq<int>, rules: seq<Rule>): set<int> {
    if times == [] then {} else Keep(Nightly(times[..|times| - 1], rules) + {times[|times| - 1]}, rules)
  }

  /** Pruning every night keeps exactly what one prune over the whole history would. */
  lemma {:induction false} NightlyIsOnePrune(times: seq<int>, rules: seq<Rule>)
    requires RulesOK(rules) && forall i, j :: 0 <= i < j < |times| ==> times[i] < times[j]
    ensures Nightly(times, rules) == Keep(SetOf(times), rules)
    decreases |times|
  {
    if times != [] {
      var before, n := times[..|times| - 1], times[|times| - 1];
      NightlyIsOnePrune(before, rules);
      var s := SetOf(before);
      forall m | m in s
        ensures m < n
      {
        var i :| 0 <= i < |before| && before[i] == m;
      }
      PruneThenAdd(s, n, rules);
      assert times == before + [n];
      assert s + {n} == SetOf(times);
    }
  }

  // ---- size --------------------------------------------------------------------------------------------

  function Total(rules: seq<Rule>): nat {
    if rules == [] then 0 else rules[0].count + Total(rules[1..])
  }

  lemma {:induction false} ImageSize(s: set<int>, b: int -> int)
    requires forall x, y :: x in s && y in s && b(x) == b(y) ==> x == y
    ensures |set x | x in s :: b(x)| == |s|
    decreases |s|
  {
    if s != {} {
      Inhabited(s);
      var x :| x in s;
      ImageSize(s - {x}, b);
      assert (set y | y in s :: b(y)) == (set y | y in s - {x} :: b(y)) + {b(x)};
    }
  }

  function Buckets(s: set<int>, b: int -> int): set<int> { set n | n in s :: b(n) }

  function Above(values: set<int>, v: int): set<int> { set w | w in values && w > v }

  function Top(values: set<int>, count: nat): set<int> { set v | v in values && |Above(values, v)| < count }

  /** The values with fewer than `count` above them: `count` of them, or all when there are no more. */
  lemma {:induction false} TopSize(values: set<int>, count: nat)
    ensures |Top(values, count)| == if |values| < count then |values| else count
    decreases |values|
  {
    if values == {} {
      assert Top(values, count) == {};
    } else {
      var low := Minimum(values);
      var rest := values - {low};
      TopSize(rest, count);
      forall v | v in rest
        ensures Above(values, v) == Above(rest, v)
      {
      }
      assert Above(values, low) == rest;
      assert Top(values, count) == if |rest| < count then Top(rest, count) + {low} else Top(rest, count);
    }
  }

  /** EXACTLY THE LAST BUCKETS: a rule keeps one set, the newest, of each of the last `count` buckets that hold
      any, so `count` sets, or one for every bucket when there are no more. */
  lemma RuleKeepsExactly(s: set<int>, r: Rule)
    ensures var kept := set n | n in s && KeptBy(s, n, r);
            && |kept| == (if |Buckets(s, r.bucket)| < r.count then |Buckets(s, r.bucket)| else r.count)
            && (forall n, m :: n in kept && m in s && r.bucket(m) == r.bucket(n) ==> m <= n)
            && forall n, m :: n in kept && m in s && r.bucket(m) > r.bucket(n) ==>
                                r.bucket(m) in Buckets(kept, r.bucket)
  {
    var b := r.bucket;
    var kept := set n | n in s && KeptBy(s, n, r);
    forall n | n in s
      ensures NewerBuckets(s, n, b) == Above(Buckets(s, b), b(n))
    {
    }
    forall v | v in Top(Buckets(s, b), r.count)
      ensures v in Buckets(kept, b)
    {
      var n :| n in s && b(n) == v;
      var lead := Leader(s, n, b);
      assert lead in kept;
    }
    assert Buckets(kept, b) == Top(Buckets(s, b), r.count);
    ImageSize(kept, b);
    TopSize(Buckets(s, b), r.count);
    forall n, m | n in kept && m in s && b(m) > b(n)
      ensures b(m) in Buckets(kept, b)
    {
      var values := Buckets(s, b);
      SizeMonotone(Above(values, b(m)), Above(values, b(n)));
      assert b(m) in Top(values, r.count);
    }
  }

  lemma OneRuleSize(s: set<int>, r: Rule)
    requires Monotone(r.bucket)
    ensures |set n | n in s && KeptBy(s, n, r)| <= r.count
  {
    var kept := set n | n in s && KeptBy(s, n, r);
    if kept != {} {
      var low := Minimum(kept);
      var rest := kept - {low};
      ImageSize(rest, r.bucket);
      assert (set x | x in rest :: r.bucket(x)) <= NewerBuckets(s, low, r.bucket);
      SizeMonotone(set x | x in rest :: r.bucket(x), NewerBuckets(s, low, r.bucket));
    }
  }

  ghost function KeptBySome(s: set<int>, rules: seq<Rule>): set<int> {
    set n | n in s && (exists r :: r in rules && KeptBy(s, n, r))
  }

  lemma {:induction false} AllRulesSize(s: set<int>, rules: seq<Rule>)
    requires RulesOK(rules)
    ensures |KeptBySome(s, rules)| <= Total(rules)
    decreases |rules|
  {
    var kept := KeptBySome(s, rules);
    if rules == [] {
      assert kept == {};
    } else {
      var rest := rules[1..];
      var first := set n | n in s && KeptBy(s, n, rules[0]);
      var others := KeptBySome(s, rest);
      forall n | n in kept
        ensures n in first + others
      {
        var r :| r in rules && KeptBy(s, n, r);
        assert r == rules[0] || r in rest;
      }
      OneRuleSize(s, rules[0]);
      AllRulesSize(s, rest);
      SizeMonotone(kept, first + others);
      assert |first + others| <= |first| + |others|;
    }
  }

  /** BOUNDED: however long the history, no more sets than the counts add up to; one if they are all zero. */
  lemma KeepBounded(s: set<int>, rules: seq<Rule>)
    requires RulesOK(rules)
    ensures |Keep(s, rules)| <= if Total(rules) == 0 then 1 else Total(rules)
  {
    AllRulesSize(s, rules);
    var all := KeptBySome(s, rules);
    if s == {} {
      assert Keep(s, rules) == {};
    } else {
      var top := Maximum(s);
      assert Keep(s, rules) <= all + {top};
      if r :| r in rules && r.count >= 1 {
        assert NewerBuckets(s, top, r.bucket) == {} && KeptBy(s, top, r);
        SizeMonotone(Keep(s, rules), all);
      } else {
        AllZero(rules);
        assert all == {};
        SizeMonotone(Keep(s, rules), {top});
      }
    }
  }

  lemma {:induction false} AllZero(rules: seq<Rule>)
    requires forall r :: r in rules ==> r.count == 0
    ensures Total(rules) == 0
  {
    if rules != [] {
      assert rules[0] in rules;
      AllZero(rules[1..]);
    }
  }

  // ---- the loop ------------------------------------------------------------------------------------------

  predicate NewerFirst(x: int, y: int) {
    x >= y
  }

  /** Walk the sets newest first; stop a rule at the first bucket past its count. */
  method ChooseKeep(names: seq<int>, rules: seq<Rule>) returns (keep: set<int>)
    requires RulesOK(rules) && forall i, j :: 0 <= i < j < |names| ==> names[i] != names[j]
    ensures keep == Keep(SetOf(names), rules)
    ensures names != [] ==> exists n :: n in keep && n in names && forall m :: m in names ==> m <= n
  {
    var sorted := Sort(names, NewerFirst);
    SortCorrect(names, NewerFirst);
    StrictlyNewer(names, sorted);
    ghost var s := SetOf(names);
    assert s == SetOf(sorted);
    keep := if sorted == [] then {} else {sorted[0]};
    ghost var newest := keep;
    FirstIsNewest(sorted);
    for i := 0 to |rules|
      invariant forall n :: n in keep <==> n in newest || n in KeptBySome(s, rules[..i])
    {
      var kept := KeepByRule(sorted, rules[i], s);
      ghost var rule := rules[i];
      forall n
        ensures n in kept <==> n in s && KeptBy(s, n, rule)
      {
      }
      keep := keep + kept;
      OneMoreRule(s, rules, i);
    }
    assert rules[..|rules|] == rules;
    forall n
      ensures n in keep <==> n in Keep(s, rules)
    {
      assert n in newest <==> Newest(s, n);
      assert n in Keep(s, rules) <==> n in s && Kept(s, n, rules);
    }
    assert sorted != [] ==> Newest(s, sorted[0]);
  }

  lemma FirstIsNewest(sorted: seq<int>)
    requires forall i, j :: 0 <= i < j < |sorted| ==> sorted[i] > sorted[j]
    ensures forall n :: Newest(SetOf(sorted), n) <==> sorted != [] && n == sorted[0]
  {
    if sorted != [] {
      assert sorted[0] in SetOf(sorted);
      forall m | m in SetOf(sorted)
        ensures m <= sorted[0]
      {
        var j :| 0 <= j < |sorted| && sorted[j] == m;
      }
    }
  }

  lemma OneMoreRule(s: set<int>, rules: seq<Rule>, i: nat)
    requires i < |rules|
    ensures forall n :: n in KeptBySome(s, rules[..i + 1]) <==>
                        n in KeptBySome(s, rules[..i]) || (n in s && KeptBy(s, n, rules[i]))
  {
    assert rules[..i + 1] == rules[..i] + [rules[i]];
    forall n
      ensures n in KeptBySome(s, rules[..i + 1]) <==>
              n in KeptBySome(s, rules[..i]) || (n in s && KeptBy(s, n, rules[i]))
    {
      if n in s && KeptBy(s, n, rules[i]) {
        assert rules[i] in rules[..i + 1];
      }
      if n in KeptBySome(s, rules[..i]) {
        var r :| r in rules[..i] && KeptBy(s, n, r);
        assert r in rules[..i + 1];
      }
    }
  }

  lemma StrictlyNewer(names: seq<int>, sorted: seq<int>)
    requires Sorted(sorted, NewerFirst) && multiset(sorted) == multiset(names)
    requires forall i, j :: 0 <= i < j < |names| ==> names[i] != names[j]
    ensures forall i, j :: 0 <= i < j < |sorted| ==> sorted[i] > sorted[j]
  {
    forall i, j | 0 <= i < j < |sorted|
      ensures sorted[i] > sorted[j]
    {
      if sorted[i] == sorted[j] {
        var x := sorted[i];
        TwiceCounts(sorted, i, j);
        assert multiset(names)[x] >= 2;
        OnceCounts(names, x);
      }
    }
  }

  lemma TwiceCounts(s: seq<int>, i: int, j: int)
    requires 0 <= i < j < |s| && s[i] == s[j]
    ensures multiset(s)[s[i]] >= 2
  {
    assert s == s[..j] + [s[j]] + s[j + 1..];
    assert s[i] in s[..j];
  }

  lemma {:induction false} OnceCounts(s: seq<int>, x: int)
    requires forall i, j :: 0 <= i < j < |s| ==> s[i] != s[j]
    ensures multiset(s)[x] <= 1
    decreases |s|
  {
    if s != [] {
      OnceCounts(s[1..], x);
      assert s == [s[0]] + s[1..];
      if s[0] == x {
        assert x !in s[1..];
      }
    }
  }

  /** Once a set has as many newer buckets as the rule keeps, so has every older one. */
  lemma NoneOlderKept(sorted: seq<int>, rule: Rule, s: set<int>, i: nat)
    requires s == SetOf(sorted) && i < |sorted|
    requires forall i, j :: 0 <= i < j < |sorted| ==> sorted[i] > sorted[j]
    requires Monotone(rule.bucket) && |NewerBuckets(s, sorted[i], rule.bucket)| >= rule.count
    ensures forall n :: n in s && n !in sorted[..i] ==> !KeptBy(s, n, rule)
  {
    var b := rule.bucket;
    forall n | n in s && n !in sorted[..i]
      ensures !KeptBy(s, n, rule)
    {
      var j :| 0 <= j < |sorted| && sorted[j] == n;
      assert NewerBuckets(s, sorted[i], b) <= NewerBuckets(s, n, b);
      SizeMonotone(NewerBuckets(s, sorted[i], b), NewerBuckets(s, n, b));
    }
  }

  method KeepByRule(sorted: seq<int>, rule: Rule, ghost s: set<int>) returns (keep: set<int>)
    requires Monotone(rule.bucket) && s == SetOf(sorted)
    requires forall i, j :: 0 <= i < j < |sorted| ==> sorted[i] > sorted[j]
    ensures forall n :: n in keep <==> KeptBy(s, n, rule)
  {
    keep := {};
    var seen: seq<int> := [];
    var i := 0;
    ghost var b := rule.bucket;
    while i < |sorted|
      invariant 0 <= i <= |sorted|
      invariant forall v :: v in seen <==> exists j :: 0 <= j < i && b(sorted[j]) == v
      invariant forall j, k :: 0 <= j < k < |seen| ==> seen[j] != seen[k]
      invariant forall n :: n in keep <==> n in sorted[..i] && KeptBy(s, n, rule)
    {
      var v := rule.bucket(sorted[i]);
      assert sorted[..i + 1] == sorted[..i] + [sorted[i]];
      if v in seen {
        ghost var j :| 0 <= j < i && b(sorted[j]) == v;
        assert sorted[j] in s && !Leads(s, sorted[i], b);
      } else {
        SeenAreNewer(sorted, rule.bucket, s, seen, i);
        if |seen| >= rule.count {
          NoneOlderKept(sorted, rule, s, i);
          return;
        }
        seen := seen + [v];
        keep := keep + {sorted[i]};
      }
      i := i + 1;
    }
    assert sorted[..i] == sorted;
  }

  /** A bucket met for the first time: its set leads it, and the buckets seen are the newer ones. */
  lemma SeenAreNewer(sorted: seq<int>, b: int -> int, s: set<int>, seen: seq<int>, i: nat)
    requires Monotone(b) && s == SetOf(sorted) && i < |sorted| && b(sorted[i]) !in seen
    requires forall j, k :: 0 <= j < k < |sorted| ==> sorted[j] > sorted[k]
    requires forall v :: v in seen <==> exists j :: 0 <= j < i && b(sorted[j]) == v
    requires forall j, k :: 0 <= j < k < |seen| ==> seen[j] != seen[k]
    ensures Leads(s, sorted[i], b) && |NewerBuckets(s, sorted[i], b)| == |seen|
  {
    var n := sorted[i];
    forall m | m in s && b(m) == b(n)
      ensures m <= n
    {
      var j :| 0 <= j < |sorted| && sorted[j] == m;
    }
    var newer := NewerBuckets(s, n, b);
    forall v
      ensures v in newer <==> v in seen
    {
      if v in newer {
        var m :| m in s && b(m) > b(n) && b(m) == v;
        var j :| 0 <= j < |sorted| && sorted[j] == m;
        assert j < i;
      }
      if v in seen {
        var j :| 0 <= j < i && b(sorted[j]) == v;
        assert b(sorted[j]) >= b(n) && sorted[j] in s;
      }
    }
    DistinctSize(seen, newer);
  }

  lemma {:induction false} DistinctSize(q: seq<int>, s: set<int>)
    requires forall j, k :: 0 <= j < k < |q| ==> q[j] != q[k]
    requires forall v :: v in s <==> v in q
    ensures |s| == |q|
    decreases |q|
  {
    if q != [] {
      assert q == [q[0]] + q[1..];
      assert q[0] !in q[1..];
      DistinctSize(q[1..], s - {q[0]});
    } else {
      Inhabited(s);
    }
  }
}
