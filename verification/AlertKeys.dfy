/** How the evaluator writes its keys: four names with bars between them. The rest of the model uses
    the names themselves, and this says exactly when that is the same. */
module AlertKeys {
  import opened Basics

  const BAR: char := '|'

  function AlertKey(host: string, rule: string, metric: string, target: string): string {
    host + [BAR] + (rule + [BAR] + (metric + [BAR] + target))
  }

  /** As long as host, rule and metric names have no bar in them, two different keys are never
      written alike, so the maps behave as maps of keys. Targets may hold anything. */
  lemma AlertKeysAreExact(h1: string, r1: string, m1: string, t1: string, h2: string, r2: string, m2: string, t2: string)
    requires BAR !in h1 && BAR !in r1 && BAR !in m1 && BAR !in h2 && BAR !in r2 && BAR !in m2
    ensures AlertKey(h1, r1, m1, t1) == AlertKey(h2, r2, m2, t2) <==> h1 == h2 && r1 == r2 && m1 == m2 && t1 == t2
  {
    if AlertKey(h1, r1, m1, t1) == AlertKey(h2, r2, m2, t2) {
      JoinInjective(BAR, h1, r1 + [BAR] + (m1 + [BAR] + t1), h2, r2 + [BAR] + (m2 + [BAR] + t2));
      JoinInjective(BAR, r1, m1 + [BAR] + t1, r2, m2 + [BAR] + t2);
      JoinInjective(BAR, m1, t1, m2, t2);
    }
  }

  /** A sweep for a rule's keys goes by the key of an empty host and target as a prefix. Without bars
      in names it finds exactly the rule's keys on its metric, and what follows is the target. */
  lemma SweepIsExact(rule: string, metric: string, h: string, r: string, m: string, t: string)
    requires BAR !in rule && BAR !in metric && BAR !in h && BAR !in r && BAR !in m
    ensures AlertKey("", rule, metric, "") <= AlertKey(h, r, m, t) <==> h == "" && r == rule && m == metric
    ensures h == "" && r == rule && m == metric ==> AlertKey(h, r, m, t)[|AlertKey("", rule, metric, "")|..] == t
  {
    var prefix, key := AlertKey("", rule, metric, ""), AlertKey(h, r, m, t);
    PrefixAndTarget(rule, metric, t);
    if prefix <= key {
      var rest := key[|prefix|..];
      assert key == prefix + rest;
      PrefixAndTarget(rule, metric, rest);
      AlertKeysAreExact(h, r, m, t, "", rule, metric, rest);
    }
  }

  lemma PrefixAndTarget(rule: string, metric: string, target: string)
    ensures AlertKey("", rule, metric, "") + target == AlertKey("", rule, metric, target)
  {
    assert metric + [BAR] + "" + target == metric + [BAR] + target;
  }

  // ---------------------------------------------------------------- keys that can be mistaken

  /** No other key is written like this one. */
  ghost predicate WrittenAlone(h: string, r: string, m: string, t: string) {
    forall h', r', m', t' :: AlertKey(h', r', m', t') == AlertKey(h, r, m, t) ==> h' == h && r' == r && m' == m && t' == t
  }

  function Bars(s: string): nat {
    if s == [] then 0 else (if s[0] == BAR then 1 else 0) + Bars(s[1..])
  }

  lemma {:induction false} BarsJoined(a: string, b: string)
    ensures Bars(a + [BAR] + b) == Bars(a) + 1 + Bars(b)
  {
    var joined := a + [BAR] + b;
    if a == [] {
      assert joined[1..] == b;
    } else {
      BarsJoined(a[1..], b);
      assert joined[1..] == a[1..] + [BAR] + b;
    }
  }

  lemma {:induction false} NoBarsIff(s: string)
    ensures Bars(s) == 0 <==> BAR !in s
  {
    if s != [] {
      NoBarsIff(s[1..]);
    }
  }

  lemma BarsOfKey(h: string, r: string, m: string, t: string)
    ensures Bars(AlertKey(h, r, m, t)) == Bars(h) + Bars(r) + Bars(m) + Bars(t) + 3
  {
    BarsJoined(h, r + [BAR] + (m + [BAR] + t));
    BarsJoined(r, m + [BAR] + t);
    BarsJoined(m, t);
  }

  lemma BarFreeIsAlone(h: string, r: string, m: string, t: string)
    requires BAR !in h && BAR !in r && BAR !in m && BAR !in t
    ensures WrittenAlone(h, r, m, t)
  {
    forall h', r', m', t' | AlertKey(h', r', m', t') == AlertKey(h, r, m, t) ensures h' == h && r' == r && m' == m && t' == t {
      BarsOfKey(h', r', m', t');
      BarsOfKey(h, r, m, t);
      NoBarsIff(h);
      NoBarsIff(r);
      NoBarsIff(m);
      NoBarsIff(t);
      NoBarsIff(h');
      NoBarsIff(r');
      NoBarsIff(m');
      AlertKeysAreExact(h', r', m', t', h, r, m, t);
    }
  }

  lemma SplitAtBar(s: string) returns (a: string, b: string)
    requires BAR in s
    ensures s == a + [BAR] + b
  {
    var i :| 0 <= i < |s| && s[i] == BAR;
    a, b := s[..i], s[i + 1..];
  }

  /** Moving the bars: four names with one bar among them make the same text in more than one way. */
  lemma BarsMove(a: string, b: string, c: string, d: string, e: string)
    ensures AlertKey(a + [BAR] + b, c, d, e) == AlertKey(a, b, c, d + [BAR] + e)
    ensures AlertKey(a, b + [BAR] + c, d, e) == AlertKey(a, b, c, d + [BAR] + e)
    ensures AlertKey(a, b, c + [BAR] + d, e) == AlertKey(a, b, c, d + [BAR] + e)
  {
    var de := d + [BAR] + e;
    assert (c + [BAR] + d) + [BAR] + e == c + [BAR] + de;
    assert (b + [BAR] + c) + [BAR] + de == b + [BAR] + (c + [BAR] + de);
    assert (a + [BAR] + b) + [BAR] + (c + [BAR] + de) == a + [BAR] + (b + [BAR] + (c + [BAR] + de));
  }

  /** A key is written like no other if and only if none of its four names holds a bar. */
  lemma WrittenAloneIff(h: string, r: string, m: string, t: string)
    ensures WrittenAlone(h, r, m, t) <==> BAR !in h && BAR !in r && BAR !in m && BAR !in t
  {
    if BAR in h {
      var a, b := SplitAtBar(h);
      BarsMove(a, b, r, m, t);
      assert AlertKey(a, b, r, m + [BAR] + t) == AlertKey(h, r, m, t) && a != h;
    } else if BAR in r {
      var a, b := SplitAtBar(r);
      BarsMove(h, a, b, m, t);
      assert AlertKey(h, a, b, m + [BAR] + t) == AlertKey(h, r, m, t) && a != r;
    } else if BAR in m {
      var a, b := SplitAtBar(m);
      BarsMove(h, r, a, b, t);
      assert AlertKey(h, r, a, b + [BAR] + t) == AlertKey(h, r, m, t) && a != m;
    } else if BAR in t {
      var a, b := SplitAtBar(t);
      BarsMove(h, r, m, a, b);
      assert AlertKey(h, r, m + [BAR] + a, b) == AlertKey(h, r, m, t) && m + [BAR] + a != m;
    } else {
      BarFreeIsAlone(h, r, m, t);
    }
  }

  /** The names come in this order with bars between them. */
  lemma KeyIsWritten(host: string, rule: string, metric: string, target: string)
    ensures AlertKey(host, rule, metric, target) == host + "|" + rule + "|" + metric + "|" + target
  {
  }
}
