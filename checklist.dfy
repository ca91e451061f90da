/**
 * What the evaluators share: removing repeated messages (`Array.from(new Set(list))`), the
 * substring test on a blob's MIME type, and the checklist tally with its compliance line
 * (`renderChecklist`, src/app.js:256-285).
 */
module Checklist {
  import opened Utils

  // ---------------------------------------------------------------- de-duplication

  predicate Distinct<T(==)>(xs: seq<T>)
  {
    forall i, j :: 0 <= i < j < |xs| ==> xs[i] != xs[j]
  }

  /**
   * `Array.from(new Set(xs))`: every element once, in the order of first occurrence
   * (`DedupKeepsFirstOrder`). Built from the back: the last element is kept only when no
   * earlier element equals it.
   */
  function Dedup<T(==)>(xs: seq<T>): (r: seq<T>)
    ensures forall i :: 0 <= i < |r| ==> r[i] in xs
    ensures forall i :: 0 <= i < |xs| ==> xs[i] in r
    ensures Distinct(r)
    ensures |r| <= |xs|
  {
    if xs == [] then []
    else
      var front := Dedup(xs[..|xs| - 1]);
      if xs[|xs| - 1] in xs[..|xs| - 1] then front else front + [xs[|xs| - 1]]
  }

  /** The position at which `x` first occurs in `xs`. */
  function FirstIndex<T(==)>(xs: seq<T>, x: T): (k: nat)
    requires x in xs
    ensures k < |xs| && xs[k] == x && x !in xs[..k]
  {
    if xs[0] == x then 0 else assert xs == [xs[0]] + xs[1..]; 1 + FirstIndex(xs[1..], x)
  }

  /** Extending a list does not move the first occurrence of an element already in it. */
  lemma FirstIndexOfPrefix<T>(xs: seq<T>, n: nat, x: T)
    requires n <= |xs| && x in xs[..n]
    ensures FirstIndex(xs, x) == FirstIndex(xs[..n], x)
  {
    var k := FirstIndex(xs[..n], x);
    assert xs[..n][..k] == xs[..k];
  }

  /** `r` lists its elements in the order in which they first occur in `xs`. */
  ghost predicate InFirstOccurrenceOrder<T>(xs: seq<T>, r: seq<T>)
    requires forall i :: 0 <= i < |r| ==> r[i] in xs
  {
    forall i, j :: 0 <= i < j < |r| ==> FirstIndex(xs, r[i]) < FirstIndex(xs, r[j])
  }

  /** De-duplication keeps the elements in the order of their first occurrence. */
  lemma {:induction false} DedupKeepsFirstOrder<T>(xs: seq<T>)
    ensures InFirstOccurrenceOrder(xs, Dedup(xs))
  {
    if xs != [] {
      var init := xs[..|xs| - 1];
      var last := xs[|xs| - 1];
      var front := Dedup(init);
      DedupKeepsFirstOrder(init);
      forall i | 0 <= i < |front|
        ensures FirstIndex(xs, front[i]) == FirstIndex(init, front[i])
      {
        FirstIndexOfPrefix(xs, |xs| - 1, front[i]);
      }
      if last !in init {
        assert xs[..|xs| - 1] == init;
        assert FirstIndex(xs, last) == |xs| - 1;
        var r := front + [last];
        forall i, j | 0 <= i < j < |r|
          ensures FirstIndex(xs, r[i]) < FirstIndex(xs, r[j])
        {
          if j < |front| {
            assert r[i] == front[i] && r[j] == front[j];
          } else {
            assert r[i] == front[i];
          }
        }
      }
    }
  }

  /** A list without repetitions comes back unchanged. */
  lemma {:induction false} DedupOfDistinct<T>(xs: seq<T>)
    requires Distinct(xs)
    ensures Dedup(xs) == xs
  {
    if xs != [] {
      var front := xs[..|xs| - 1];
      assert Distinct(front);
      DedupOfDistinct(front);
      var last := xs[|xs| - 1];
      forall i | 0 <= i < |front|
        ensures front[i] != last
      {
        assert front[i] == xs[i];
      }
      assert last !in front;
      assert front + [last] == xs;
    }
  }

  /** De-duplicating twice is de-duplicating once. */
  lemma DedupIdempotent<T>(xs: seq<T>)
    ensures Dedup(Dedup(xs)) == Dedup(xs)
  {
    DedupOfDistinct(Dedup(xs));
  }

  /** Appending an element already present changes nothing after de-duplication. */
  lemma DedupAbsorbsRepeat<T>(xs: seq<T>, x: T)
    requires x in xs
    ensures Dedup(xs + [x]) == Dedup(xs)
  {
    assert (xs + [x])[..|xs + [x]| - 1] == xs;
  }

  /** The elements of `xs` that `keep` accepts, in their order. */
  function Filter<T>(xs: seq<T>, keep: T -> bool): (r: seq<T>)
    ensures forall i :: 0 <= i < |r| ==> r[i] in xs && keep(r[i])
    ensures forall i :: 0 <= i < |xs| && keep(xs[i]) ==> xs[i] in r
    ensures Distinct(xs) ==> Distinct(r)
  {
    if xs == [] then []
    else
      var front := xs[..|xs| - 1];
      var last := xs[|xs| - 1];
      var r := Filter(front, keep);
      assert forall i :: 0 <= i < |front| ==> front[i] == xs[i];
      if keep(last) then r + [last] else r
  }

  // ---------------------------------------------------------------- substring test

  /** `s.includes(t)`: `t` occurs in `s` at some offset. */
  predicate Includes(s: string, t: string)
  {
    exists i :: 0 <= i <= |s| && t <= s[i..]
  }

  /** The MIME type a JPEG encoder reports passes the format test, a PNG one does not. */
  lemma JpegMimeTypes()
    ensures Includes("image/jpeg", "jpeg")
    ensures !Includes("image/png", "jpeg")
    ensures !Includes("", "jpeg")
  {
    var s := "image/jpeg";
    assert "jpeg" <= s[6..];
    var p := "image/png";
    forall i | 0 <= i <= |p|
      ensures !("jpeg" <= p[i..])
    {
      if i + 4 <= |p| {
        assert p[i..][0] == p[i];
      }
    }
  }

  // ---------------------------------------------------------------- tally

  datatype Tally = Tally(pass: nat, warn: nat, fail: nat)

  /** `checks[key]?.status ?? "warn"`: a key the record does not hold counts as a warning. */
  function StatusOf(checks: map<string, StatusRecord>, key: string): (v: Verdict)
    ensures v != Warn ==> key in checks && checks[key].status == v
    ensures key in checks ==> v == checks[key].status
  {
    if key in checks then checks[key].status else Warn
  }

  function Counted(t: Tally, v: Verdict): Tally
  {
    match v
    case Pass => t.(pass := t.pass + 1)
    case Fail => t.(fail := t.fail + 1)
    case Warn => t.(warn := t.warn + 1)
  }

  /** The three counters after the labels `keys`, in order. */
  function TallyOf(keys: seq<string>, checks: map<string, StatusRecord>): (t: Tally)
    ensures t.pass + t.warn + t.fail == |keys|
  {
    if keys == [] then Tally(0, 0, 0)
    else Counted(TallyOf(keys[..|keys| - 1], checks), StatusOf(checks, keys[|keys| - 1]))
  }

  /** No label fails exactly when the fail counter is zero; likewise for warnings and passes. */
  lemma {:induction false} TallyCounts(keys: seq<string>, checks: map<string, StatusRecord>)
    ensures TallyOf(keys, checks).fail == 0 <==> forall i :: 0 <= i < |keys| ==> StatusOf(checks, keys[i]) != Fail
    ensures TallyOf(keys, checks).warn == 0 <==> forall i :: 0 <= i < |keys| ==> StatusOf(checks, keys[i]) != Warn
    ensures TallyOf(keys, checks).pass == |keys| <==> forall i :: 0 <= i < |keys| ==> StatusOf(checks, keys[i]) == Pass
  {
    if keys != [] {
      var front := keys[..|keys| - 1];
      TallyCounts(front, checks);
      assert forall i :: 0 <= i < |front| ==> front[i] == keys[i];
    }
  }

  /** A label whose check is missing from the record is tallied as a warning, so the line is not "PASS". */
  lemma MissingCheckIsNotCompliant(keys: seq<string>, checks: map<string, StatusRecord>, i: nat)
    requires i < |keys| && keys[i] !in checks
    ensures TallyOf(keys, checks).warn > 0
    ensures ComplianceText(TallyOf(keys, checks)) != "PASS"
  {
    TallyCounts(keys, checks);
    assert StatusOf(checks, keys[i]) == Warn;
  }

  /** The compliance line under the checklist. */
  function ComplianceText(t: Tally): (s: string)
    ensures s == "PASS" <==> t.warn == 0 && t.fail == 0
    ensures s != "PASS" ==> |s| > 0 && IsDigit(s[0])
  {
    if t.fail > 0 then
      NatToString(t.pass) + " PASS / " + NatToString(t.warn) + " WARN / " + NatToString(t.fail) + " FAIL"
    else if t.warn == 0 then "PASS"
    else NatToString(t.pass) + " PASS / " + NatToString(t.warn) + " WARN"
  }

  /**
   * `renderChecklist`: walks the labels in order, records the badge each row shows, counts
   * the three verdicts and produces the compliance line.
   */
  method RenderChecklist(keys: seq<string>, checks: map<string, StatusRecord>)
    returns (badges: seq<Verdict>, t: Tally, compliance: string)
    ensures |badges| == |keys| && forall i :: 0 <= i < |keys| ==> badges[i] == StatusOf(checks, keys[i])
    ensures t == TallyOf(keys, checks)
    ensures compliance == ComplianceText(t)
  {
    badges := [];
    t := Tally(0, 0, 0);
    var i := 0;
    while i < |keys|
      invariant 0 <= i <= |keys|
      invariant |badges| == i && forall j :: 0 <= j < i ==> badges[j] == StatusOf(checks, keys[j])
      invariant t == TallyOf(keys[..i], checks)
    {
      var status := if keys[i] in checks then checks[keys[i]].status else Warn;
      if status == Pass {
        t := t.(pass := t.pass + 1);
      } else if status == Fail {
        t := t.(fail := t.fail + 1);
      } else {
        t := t.(warn := t.warn + 1);
      }
      badges := badges + [status];
      assert keys[..i + 1][..i] == keys[..i];
      i := i + 1;
    }
    assert keys[..i] == keys;
    if t.fail > 0 {
      compliance := NatToString(t.pass) + " PASS / " + NatToString(t.warn) + " WARN / " + NatToString(t.fail) + " FAIL";
    } else {
      compliance := if t.warn == 0 then "PASS" else NatToString(t.pass) + " PASS / " + NatToString(t.warn) + " WARN";
    }
  }

  /** Every label passing is what makes the compliance line read "PASS". */
  lemma CompliantIffAllPass(keys: seq<string>, checks: map<string, StatusRecord>)
    ensures ComplianceText(TallyOf(keys, checks)) == "PASS" <==>
              forall i :: 0 <= i < |keys| ==> StatusOf(checks, keys[i]) == Pass
  {
    TallyCounts(keys, checks);
    var t := TallyOf(keys, checks);
    if t.warn == 0 && t.fail == 0 {
      forall i | 0 <= i < |keys| ensures StatusOf(checks, keys[i]) == Pass {
        assert StatusOf(checks, keys[i]) != Warn && StatusOf(checks, keys[i]) != Fail;
      }
    }
  }
}
