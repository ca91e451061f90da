/**
 * `detectBands` (src/app.js:839-877): a run-length segmenter over a projection profile.
 * An entry is active when it reaches `minCount`; active entries separated by at most
 * `maxGap` inactive entries belong to one band, and a band is kept when it spans at least
 * `minSpan` entries.
 *
 * The method is proved against a declarative characterisation (DetectedBands): every band
 * is a maximal gap-tolerant cluster of active entries with the required span and its peak,
 * bands are ordered with more than `maxGap` entries between them, and every long enough
 * cluster is reported. BandsDetermined shows the characterisation fixes the list; the
 * scenario lemmas read the result off it for one or two runs of active entries.
 */
module Bands {
  import opened Utils

  datatype Band = Band(start: int, end: int, span: int, peak: real)

  predicate Active(values: seq<real>, minCount: real, j: int)
  {
    0 <= j < |values| && values[j] >= minCount
  }

  /** Some entry among the `maxGap + 1` entries starting at `a` is active. */
  predicate ActiveWithin(values: seq<real>, minCount: real, maxGap: nat, a: int)
  {
    exists k :: a <= k <= a + maxGap && Active(values, minCount, k)
  }

  /** No run of more than `maxGap` inactive entries lies strictly between `s` and `e`. */
  predicate Bridged(values: seq<real>, minCount: real, maxGap: nat, s: int, e: int)
  {
    forall a :: s < a && a + maxGap < e ==> ActiveWithin(values, minCount, maxGap, a)
  }

  /** The `maxGap + 1` entries before `s` are inactive. */
  predicate QuietBefore(values: seq<real>, minCount: real, maxGap: nat, s: int)
  {
    forall j :: s - maxGap - 1 <= j < s ==> !Active(values, minCount, j)
  }

  /** The `maxGap + 1` entries after `e` are inactive. */
  predicate QuietAfter(values: seq<real>, minCount: real, maxGap: nat, e: int)
  {
    forall j :: e < j <= e + maxGap + 1 ==> !Active(values, minCount, j)
  }

  /** `[s, e]` is a maximal cluster: active at both ends, bridged, and quiet on both sides. */
  predicate IsCluster(values: seq<real>, minCount: real, maxGap: nat, s: int, e: int)
  {
    && s <= e
    && Active(values, minCount, s) && Active(values, minCount, e)
    && Bridged(values, minCount, maxGap, s, e)
    && QuietBefore(values, minCount, maxGap, s)
    && QuietAfter(values, minCount, maxGap, e)
  }

  /** The largest active value in `[s, e]`, and 0 when it is larger than all of them. */
  function BandPeak(values: seq<real>, minCount: real, s: int, e: int): (p: real)
    ensures p >= 0.0
    decreases e - s
  {
    if e < s then 0.0
    else if Active(values, minCount, e) then Max(BandPeak(values, minCount, s, e - 1), values[e])
    else BandPeak(values, minCount, s, e - 1)
  }

  predicate IsBand(values: seq<real>, minCount: real, minSpan: int, maxGap: nat, b: Band)
  {
    && IsCluster(values, minCount, maxGap, b.start, b.end)
    && b.span == b.end - b.start + 1
    && b.span >= minSpan
    && b.peak == BandPeak(values, minCount, b.start, b.end)
  }

  /** Bands are in increasing order with more than `maxGap` entries between consecutive ones. */
  predicate Separated(bands: seq<Band>, maxGap: nat)
  {
    forall k, l :: 0 <= k < l < |bands| ==> bands[k].end + maxGap + 1 < bands[l].start
  }

  predicate Listed(bands: seq<Band>, s: int, e: int)
  {
    exists k :: 0 <= k < |bands| && bands[k].start == s && bands[k].end == e
  }

  /** What `detectBands` returns, stated without reference to its loop. */
  ghost predicate DetectedBands(values: seq<real>, minCount: real, minSpan: int, maxGap: nat, bands: seq<Band>)
  {
    && (forall k :: 0 <= k < |bands| ==> IsBand(values, minCount, minSpan, maxGap, bands[k]))
    && Separated(bands, maxGap)
    && (forall s, e :: IsCluster(values, minCount, maxGap, s, e) && e - s + 1 >= minSpan ==> Listed(bands, s, e))
  }

  // ---------------------------------------------------------------- facts about clusters

  /** Unfolds Bridged at one window. */
  lemma BridgeAt(values: seq<real>, minCount: real, maxGap: nat, s: int, e: int, a: int)
    ensures Bridged(values, minCount, maxGap, s, e) && s < a && a + maxGap < e ==>
              ActiveWithin(values, minCount, maxGap, a)
  {
  }

  /** Two clusters ending at the same entry start at the same entry. */
  lemma ClusterStartUnique(values: seq<real>, minCount: real, maxGap: nat, s: int, t: int, e: int)
    requires s <= e && t <= e
    requires Active(values, minCount, s) && Active(values, minCount, t)
    requires QuietBefore(values, minCount, maxGap, s) && QuietBefore(values, minCount, maxGap, t)
    requires Bridged(values, minCount, maxGap, s, e) && Bridged(values, minCount, maxGap, t, e)
    ensures s == t
  {
    if s < t - maxGap - 1 {
      BridgeAt(values, minCount, maxGap, s, e, t - maxGap - 1);
      assert false;
    } else if t < s - maxGap - 1 {
      BridgeAt(values, minCount, maxGap, t, e, s - maxGap - 1);
      assert false;
    }
  }

  /** Two clusters starting at the same entry end at the same entry. */
  lemma ClusterEndUnique(values: seq<real>, minCount: real, maxGap: nat, s: int, e: int, f: int)
    requires s <= e && s <= f
    requires Active(values, minCount, e) && Active(values, minCount, f)
    requires QuietAfter(values, minCount, maxGap, e) && QuietAfter(values, minCount, maxGap, f)
    requires Bridged(values, minCount, maxGap, s, e) && Bridged(values, minCount, maxGap, s, f)
    ensures e == f
  {
    if e + maxGap + 1 < f {
      BridgeAt(values, minCount, maxGap, s, f, e + 1);
      assert false;
    } else if f + maxGap + 1 < e {
      BridgeAt(values, minCount, maxGap, s, e, f + 1);
      assert false;
    }
  }

  /** Inactive entries appended to a range leave its peak unchanged. */
  lemma {:induction false} PeakQuietTail(values: seq<real>, minCount: real, s: int, e: int, e': int)
    requires s - 1 <= e <= e'
    requires forall j :: e < j <= e' ==> !Active(values, minCount, j)
    ensures BandPeak(values, minCount, s, e') == BandPeak(values, minCount, s, e)
    decreases e' - e
  {
    if e < e' {
      PeakQuietTail(values, minCount, s, e, e' - 1);
    }
  }

  /** The peak bounds every active value of the range and is one of them unless it is 0. */
  lemma {:induction false} BandPeakIsMaximum(values: seq<real>, minCount: real, s: int, e: int)
    ensures forall j :: s <= j <= e && Active(values, minCount, j) ==> values[j] <= BandPeak(values, minCount, s, e)
    ensures BandPeak(values, minCount, s, e) == 0.0 ||
            exists j :: s <= j <= e && Active(values, minCount, j) && values[j] == BandPeak(values, minCount, s, e)
    decreases e - s
  {
    if s <= e {
      BandPeakIsMaximum(values, minCount, s, e - 1);
    }
  }

  lemma ListedGrow(bands: seq<Band>, b: Band, s: int, e: int)
    requires Listed(bands, s, e)
    ensures Listed(bands + [b], s, e)
  {
    var k :| 0 <= k < |bands| && bands[k].start == s && bands[k].end == e;
    assert (bands + [b])[k] == bands[k];
  }

  lemma ListedLast(bands: seq<Band>, b: Band)
    ensures Listed(bands + [b], b.start, b.end)
  {
    assert (bands + [b])[|bands|] == b;
  }

  // ---------------------------------------------------------------- the scan

  /** The open band of the scan: `[start, lastActive]` so far, with `i` entries read. */
  predicate Open(values: seq<real>, minCount: real, maxGap: nat, start: int, lastActive: int, i: int)
  {
    && 0 <= start <= lastActive < i
    && Active(values, minCount, start) && Active(values, minCount, lastActive)
    && QuietBefore(values, minCount, maxGap, start)
    && Bridged(values, minCount, maxGap, start, lastActive)
    && (forall j :: lastActive < j < i ==> !Active(values, minCount, j))
    && i - 1 - lastActive <= maxGap
  }

  /** The loop invariant of `detectBands` after reading the first `i` entries. */
  ghost predicate Scanned(values: seq<real>, minCount: real, minSpan: int, maxGap: nat,
                    i: int, bands: seq<Band>, start: int, lastActive: int, peak: real)
  {
    && 0 <= i <= |values|
    && (forall k :: 0 <= k < |bands| ==> IsBand(values, minCount, minSpan, maxGap, bands[k]))
    && Separated(bands, maxGap)
    && (forall k :: 0 <= k < |bands| ==> bands[k].end + maxGap + 1 < i)
    && (start < 0 ==>
          && lastActive == -1 && peak == 0.0
          && forall j :: i - maxGap - 1 <= j < i ==> !Active(values, minCount, j))
    && (start >= 0 ==>
          && Open(values, minCount, maxGap, start, lastActive, i)
          && peak == BandPeak(values, minCount, start, lastActive)
          && forall k :: 0 <= k < |bands| ==> bands[k].end + maxGap + 1 < start)
    && (forall s, e :: e + maxGap + 1 < i && IsCluster(values, minCount, maxGap, s, e) && e - s + 1 >= minSpan ==>
          Listed(bands, s, e))
  }

  /** No cluster ends exactly `maxGap + 1` entries before an entry the scan may pass over. */
  lemma ActiveStep(values: seq<real>, minCount: real, minSpan: int, maxGap: nat,
                   i: int, bands: seq<Band>, start: int, lastActive: int, peak: real)
    requires Scanned(values, minCount, minSpan, maxGap, i, bands, start, lastActive, peak)
    requires i < |values| && values[i] >= minCount
    ensures Scanned(values, minCount, minSpan, maxGap, i + 1, bands, if start < 0 then i else start, i, Max(peak, values[i]))
  {
    var start' := if start < 0 then i else start;
    assert Active(values, minCount, i);
    if start >= 0 {
      forall a | start < a && a + maxGap < i
        ensures ActiveWithin(values, minCount, maxGap, a)
      {
        if a <= lastActive {
          if a + maxGap >= lastActive {
            assert Active(values, minCount, lastActive);
          }
        }
      }
      PeakQuietTail(values, minCount, start, lastActive, i - 1);
    }
    assert BandPeak(values, minCount, start', i) == Max(BandPeak(values, minCount, start', i - 1), values[i]);
    forall s, e | e + maxGap + 1 < i + 1 && IsCluster(values, minCount, maxGap, s, e) && e - s + 1 >= minSpan
      ensures Listed(bands, s, e)
    {
      if e + maxGap + 1 == i {
        assert false;
      }
    }
  }

  lemma QuietStep(values: seq<real>, minCount: real, minSpan: int, maxGap: nat,
                  i: int, bands: seq<Band>, start: int, lastActive: int, peak: real)
    requires Scanned(values, minCount, minSpan, maxGap, i, bands, start, lastActive, peak)
    requires i < |values| && values[i] < minCount
    requires !(start >= 0 && i - lastActive > maxGap)
    ensures Scanned(values, minCount, minSpan, maxGap, i + 1, bands, start, lastActive, peak)
  {
    assert !Active(values, minCount, i);
    forall s, e | e + maxGap + 1 < i + 1 && IsCluster(values, minCount, maxGap, s, e) && e - s + 1 >= minSpan
      ensures Listed(bands, s, e)
    {
      if e + maxGap + 1 == i {
        assert false;
      }
    }
  }

  /** The band closed by an entry that lies more than `maxGap` past the last active one. */
  function Closed(bands: seq<Band>, start: int, lastActive: int, peak: real, minSpan: int): seq<Band>
  {
    var b := Band(start, lastActive, lastActive - start + 1, peak);
    if b.span >= minSpan then bands + [b] else bands
  }

  /** With the open band complete, it is a cluster and the only one ending where it does. */
  lemma OpenIsCluster(values: seq<real>, minCount: real, maxGap: nat, start: int, lastActive: int, i: int)
    requires Open(values, minCount, maxGap, start, lastActive, i)
    requires forall j :: lastActive < j <= lastActive + maxGap + 1 ==> !Active(values, minCount, j)
    ensures IsCluster(values, minCount, maxGap, start, lastActive)
    ensures forall s :: IsCluster(values, minCount, maxGap, s, lastActive) ==> s == start
  {
    forall s | IsCluster(values, minCount, maxGap, s, lastActive)
      ensures s == start
    {
      ClusterStartUnique(values, minCount, maxGap, s, start, lastActive);
    }
  }

  lemma CloseStep(values: seq<real>, minCount: real, minSpan: int, maxGap: nat,
                  i: int, bands: seq<Band>, start: int, lastActive: int, peak: real)
    requires Scanned(values, minCount, minSpan, maxGap, i, bands, start, lastActive, peak)
    requires i < |values| && values[i] < minCount
    requires start >= 0 && i - lastActive > maxGap
    ensures Scanned(values, minCount, minSpan, maxGap, i + 1, Closed(bands, start, lastActive, peak, minSpan), -1, -1, 0.0)
  {
    var b := Band(start, lastActive, lastActive - start + 1, peak);
    var bands' := Closed(bands, start, lastActive, peak, minSpan);
    assert !Active(values, minCount, i);
    OpenIsCluster(values, minCount, maxGap, start, lastActive, i);
    forall s, e | e + maxGap + 1 < i + 1 && IsCluster(values, minCount, maxGap, s, e) && e - s + 1 >= minSpan
      ensures Listed(bands', s, e)
    {
      if e + maxGap + 1 < i {
        if b.span >= minSpan {
          ListedGrow(bands, b, s, e);
        }
      } else {
        assert lastActive == e;
        ListedLast(bands, b);
      }
    }
  }

  lemma Flush(values: seq<real>, minCount: real, minSpan: int, maxGap: nat,
              bands: seq<Band>, start: int, lastActive: int, peak: real)
    requires Scanned(values, minCount, minSpan, maxGap, |values|, bands, start, lastActive, peak)
    ensures start < 0 ==> DetectedBands(values, minCount, minSpan, maxGap, bands)
    ensures start >= 0 ==> DetectedBands(values, minCount, minSpan, maxGap, Closed(bands, start, lastActive, peak, minSpan))
  {
    var n := |values|;
    if start < 0 {
      forall s, e | IsCluster(values, minCount, maxGap, s, e) && e - s + 1 >= minSpan
        ensures Listed(bands, s, e)
      {
        if e + maxGap + 1 >= n {
          assert Active(values, minCount, e);
        }
      }
    } else {
      var b := Band(start, lastActive, lastActive - start + 1, peak);
      var bands' := Closed(bands, start, lastActive, peak, minSpan);
      OpenIsCluster(values, minCount, maxGap, start, lastActive, n);
      forall s, e | IsCluster(values, minCount, maxGap, s, e) && e - s + 1 >= minSpan
        ensures Listed(bands', s, e)
      {
        if e + maxGap + 1 < n {
          if b.span >= minSpan {
            ListedGrow(bands, b, s, e);
          }
        } else {
          assert lastActive == e;
          ListedLast(bands, b);
        }
      }
    }
  }

  /** An active entry opens a band when none is open, and becomes its last active entry. */
  method ExtendOpen(values: seq<real>, minCount: real, minSpan: int, maxGap: nat,
                    i: int, bands: seq<Band>, start: int, lastActive: int, peak: real)
    returns (start': int, lastActive': int, peak': real)
    requires Scanned(values, minCount, minSpan, maxGap, i, bands, start, lastActive, peak)
    requires i < |values| && values[i] >= minCount
    ensures Scanned(values, minCount, minSpan, maxGap, i + 1, bands, start', lastActive', peak')
  {
    ActiveStep(values, minCount, minSpan, maxGap, i, bands, start, lastActive, peak);
    start' := start;
    if start' < 0 {
      start' := i;
    }
    lastActive' := i;
    peak' := Max(peak, values[i]);
  }

  /**
   * An inactive entry more than `maxGap` past the last active one closes the open band,
   * which is kept when it spans at least `minSpan` entries.
   */
  method CloseOpen(values: seq<real>, minCount: real, minSpan: int, maxGap: nat,
                   i: int, bands: seq<Band>, start: int, lastActive: int, peak: real)
    returns (bands': seq<Band>)
    requires Scanned(values, minCount, minSpan, maxGap, i, bands, start, lastActive, peak)
    requires i < |values| && values[i] < minCount && start >= 0 && i - lastActive > maxGap
    ensures Scanned(values, minCount, minSpan, maxGap, i + 1, bands', -1, -1, 0.0)
  {
    CloseStep(values, minCount, minSpan, maxGap, i, bands, start, lastActive, peak);
    bands' := bands;
    var end := lastActive;
    var span := end - start + 1;
    if span >= minSpan {
      bands' := bands' + [Band(start, end, span, peak)];
    }
    assert bands' == Closed(bands, start, lastActive, peak, minSpan);
  }

  /** One iteration of the loop of `detectBands`: entry `i` extends, closes or skips the open band. */
  method ReadEntry(values: seq<real>, minCount: real, minSpan: int, maxGap: nat,
                   i: int, bands: seq<Band>, start: int, lastActive: int, peak: real)
    returns (bands': seq<Band>, start': int, lastActive': int, peak': real)
    requires Scanned(values, minCount, minSpan, maxGap, i, bands, start, lastActive, peak)
    requires i < |values|
    ensures Scanned(values, minCount, minSpan, maxGap, i + 1, bands', start', lastActive', peak')
  {
    var active := values[i] >= minCount;
    if active {
      bands' := bands;
      start', lastActive', peak' := ExtendOpen(values, minCount, minSpan, maxGap, i, bands, start, lastActive, peak);
    } else if start >= 0 && i - lastActive > maxGap {
      bands' := CloseOpen(values, minCount, minSpan, maxGap, i, bands, start, lastActive, peak);
      start', lastActive', peak' := -1, -1, 0.0;
    } else {
      QuietStep(values, minCount, minSpan, maxGap, i, bands, start, lastActive, peak);
      bands', start', lastActive', peak' := bands, start, lastActive, peak;
    }
  }

  /** `detectBands(values, minCount, minSpan, maxGap)`. */
  method DetectBands(values: seq<real>, minCount: real, minSpan: int, maxGap: nat) returns (bands: seq<Band>)
    ensures DetectedBands(values, minCount, minSpan, maxGap, bands)
  {
    bands := [];
    var start := -1;
    var lastActive := -1;
    var peak := 0.0;
    var i := 0;
    while i < |values|
      invariant Scanned(values, minCount, minSpan, maxGap, i, bands, start, lastActive, peak)
      decreases |values| - i
    {
      bands, start, lastActive, peak := ReadEntry(values, minCount, minSpan, maxGap, i, bands, start, lastActive, peak);
      i := i + 1;
    }
    bands := CloseLast(values, minCount, minSpan, maxGap, bands, start, lastActive, peak);
  }

  /** After the loop: a band still open at the end of the profile is closed like any other. */
  method CloseLast(values: seq<real>, minCount: real, minSpan: int, maxGap: nat,
                   bands: seq<Band>, start: int, lastActive: int, peak: real) returns (bands': seq<Band>)
    requires Scanned(values, minCount, minSpan, maxGap, |values|, bands, start, lastActive, peak)
    ensures DetectedBands(values, minCount, minSpan, maxGap, bands')
  {
    Flush(values, minCount, minSpan, maxGap, bands, start, lastActive, peak);
    bands' := bands;
    if start >= 0 {
      assert lastActive >= 0;
      var end := if lastActive >= 0 then lastActive else |values| - 1;
      var span := end - start + 1;
      if span >= minSpan {
        bands' := bands + [Band(start, end, span, peak)];
      }
      assert bands' == Closed(bands, start, lastActive, peak, minSpan);
    }
  }

  // ---------------------------------------------------------------- the characterisation fixes the list

  /** Unfolds Separated at one pair of positions. */
  lemma SeparatedAt(bands: seq<Band>, maxGap: nat, k: int, l: int)
    ensures Separated(bands, maxGap) && 0 <= k < l < |bands| ==> bands[k].end + maxGap + 1 < bands[l].start
  {
  }

  predicate StartsBeforeEnds(bands: seq<Band>)
  {
    forall k :: 0 <= k < |bands| ==> bands[k].start <= bands[k].end
  }

  lemma ListedNonEmpty(bands: seq<Band>, s: int, e: int)
    requires Listed(bands, s, e)
    ensures |bands| > 0
  {
  }

  /** In an ordered list, the first band starts no later than any listed one. */
  lemma FirstStartsFirst(bands: seq<Band>, maxGap: nat, s: int, e: int)
    requires Separated(bands, maxGap) && StartsBeforeEnds(bands) && Listed(bands, s, e)
    ensures |bands| > 0 && bands[0].start <= s
  {
    var k :| 0 <= k < |bands| && bands[k].start == s && bands[k].end == e;
    SeparatedAt(bands, maxGap, 0, k);
  }

  /** An entry listed after the first band is listed in the rest of the list. */
  lemma ListedTail(bands: seq<Band>, s: int, e: int)
    requires Listed(bands, s, e) && |bands| > 0 && s != bands[0].start
    ensures Listed(bands[1..], s, e)
  {
    var k :| 0 <= k < |bands| && bands[k].start == s && bands[k].end == e;
    assert bands[1..][k - 1] == bands[k];
  }

  /** Two ordered lists that list each other's bands and agree on the first one. */
  predicate ListEachOther(b1: seq<Band>, b2: seq<Band>, maxGap: nat)
  {
    && Separated(b1, maxGap) && Separated(b2, maxGap)
    && StartsBeforeEnds(b1) && StartsBeforeEnds(b2)
    && (forall k :: 0 <= k < |b1| ==> Listed(b2, b1[k].start, b1[k].end))
    && (forall l :: 0 <= l < |b2| ==> Listed(b1, b2[l].start, b2[l].end))
  }

  lemma TailOrdered(bands: seq<Band>, maxGap: nat)
    requires Separated(bands, maxGap) && StartsBeforeEnds(bands) && |bands| > 0
    ensures Separated(bands[1..], maxGap) && StartsBeforeEnds(bands[1..])
  {
    forall k, l | 0 <= k < l < |bands| - 1
      ensures bands[1..][k].end + maxGap + 1 < bands[1..][l].start
    {
      SeparatedAt(bands, maxGap, k + 1, l + 1);
    }
  }

  /**
   * When `b2` starts with the first band of `b1`, and every band of `b1` is listed in `b2`,
   * every band of the tail of `b1` is listed in the tail of `b2`.
   */
  lemma TailListed(b1: seq<Band>, b2: seq<Band>, maxGap: nat)
    requires Separated(b1, maxGap) && StartsBeforeEnds(b1) && |b1| > 0 && |b2| > 0
    requires b2[0].start == b1[0].start
    requires forall k :: 0 <= k < |b1| ==> Listed(b2, b1[k].start, b1[k].end)
    ensures forall k :: 0 <= k < |b1| - 1 ==> Listed(b2[1..], b1[1..][k].start, b1[1..][k].end)
  {
    forall k | 0 <= k < |b1| - 1
      ensures Listed(b2[1..], b1[1..][k].start, b1[1..][k].end)
    {
      SeparatedAt(b1, maxGap, 0, k + 1);
      ListedTail(b2, b1[k + 1].start, b1[k + 1].end);
    }
  }

  /** Lists that list each other start with the same band, and their tails list each other. */
  lemma HeadsAgree(b1: seq<Band>, b2: seq<Band>, maxGap: nat)
    requires ListEachOther(b1, b2, maxGap) && |b1| > 0
    ensures |b2| > 0 && b1[0].start == b2[0].start && b1[0].end == b2[0].end
    ensures ListEachOther(b1[1..], b2[1..], maxGap)
  {
    FirstStartsFirst(b2, maxGap, b1[0].start, b1[0].end);
    FirstStartsFirst(b1, maxGap, b2[0].start, b2[0].end);
    var l :| 0 <= l < |b2| && b2[l].start == b1[0].start && b2[l].end == b1[0].end;
    SeparatedAt(b2, maxGap, 0, l);
    TailOrdered(b1, maxGap);
    TailOrdered(b2, maxGap);
    TailListed(b1, b2, maxGap);
    TailListed(b2, b1, maxGap);
  }

  /** Two ordered lists listing each other's bands agree position by position. */
  lemma {:induction false} OrderedListsAgree(b1: seq<Band>, b2: seq<Band>, maxGap: nat)
    requires ListEachOther(b1, b2, maxGap)
    ensures |b1| == |b2|
    ensures forall k :: 0 <= k < |b1| ==> b1[k].start == b2[k].start && b1[k].end == b2[k].end
    decreases |b1|
  {
    if |b2| > 0 {
      ListedNonEmpty(b1, b2[0].start, b2[0].end);
    }
    if |b1| > 0 {
      HeadsAgree(b1, b2, maxGap);
      OrderedListsAgree(b1[1..], b2[1..], maxGap);
      forall k | 1 <= k < |b1|
        ensures b1[k].start == b2[k].start && b1[k].end == b2[k].end
      {
        assert b1[k] == b1[1..][k - 1] && b2[k] == b2[1..][k - 1];
      }
    }
  }

  /** At most one list meets DetectedBands: the characterisation is a definition of the result. */
  lemma BandsDetermined(values: seq<real>, minCount: real, minSpan: int, maxGap: nat, b1: seq<Band>, b2: seq<Band>)
    requires DetectedBands(values, minCount, minSpan, maxGap, b1)
    requires DetectedBands(values, minCount, minSpan, maxGap, b2)
    ensures b1 == b2
  {
    OrderedListsAgree(b1, b2, maxGap);
  }

  // ---------------------------------------------------------------- runs of active entries

  /** Unfolds QuietBefore at one entry. */
  lemma QuietBeforeAt(values: seq<real>, minCount: real, maxGap: nat, s: int, j: int)
    ensures QuietBefore(values, minCount, maxGap, s) && s - maxGap - 1 <= j < s ==> !Active(values, minCount, j)
  {
  }

  /** Unfolds QuietAfter at one entry. */
  lemma QuietAfterAt(values: seq<real>, minCount: real, maxGap: nat, e: int, j: int)
    ensures QuietAfter(values, minCount, maxGap, e) && e < j <= e + maxGap + 1 ==> !Active(values, minCount, j)
  {
  }

  /** The active entries are exactly those of `[a1, e1]` and `[a2, e2]`. */
  predicate ActiveRuns(values: seq<real>, minCount: real, a1: int, e1: int, a2: int, e2: int)
  {
    forall j :: 0 <= j < |values| ==> (Active(values, minCount, j) <==> (a1 <= j <= e1 || a2 <= j <= e2))
  }

  /** A single run of active entries (the second run is empty): its cluster is the only one. */
  lemma {:induction false} LoneRunCluster(values: seq<real>, minCount: real, maxGap: nat, a: int, e: int)
    requires 0 <= a <= e < |values| && ActiveRuns(values, minCount, a, e, a, a - 1)
    ensures IsCluster(values, minCount, maxGap, a, e)
    ensures forall s, t :: IsCluster(values, minCount, maxGap, s, t) ==> s == a && t == e
  {
    forall x | a < x && x + maxGap < e
      ensures ActiveWithin(values, minCount, maxGap, x)
    {
      assert Active(values, minCount, x);
    }
    forall s, t | IsCluster(values, minCount, maxGap, s, t)
      ensures s == a && t == e
    {
      QuietBeforeAt(values, minCount, maxGap, s, s - 1);
      QuietAfterAt(values, minCount, maxGap, t, t + 1);
    }
  }

  /**
   * A lone run of `L` active entries yields exactly one band, of span `L`, when
   * `L >= minSpan`, and no band otherwise.
   */
  lemma LoneRun(values: seq<real>, minCount: real, minSpan: int, maxGap: nat, a: int, e: int, bands: seq<Band>)
    requires 0 <= a <= e < |values| && ActiveRuns(values, minCount, a, e, a, a - 1)
    requires DetectedBands(values, minCount, minSpan, maxGap, bands)
    ensures e - a + 1 >= minSpan ==> |bands| == 1 && bands[0].start == a && bands[0].end == e && bands[0].span == e - a + 1
    ensures e - a + 1 < minSpan ==> bands == []
  {
    LoneRunCluster(values, minCount, maxGap, a, e);
    if |bands| >= 2 {
      SeparatedAt(bands, maxGap, 0, 1);
      assert false;
    }
    if e - a + 1 >= minSpan {
      ListedNonEmpty(bands, a, e);
    } else if |bands| > 0 {
      assert false;
    }
  }

  /**
   * Two runs with at most `maxGap` inactive entries between them form one cluster, from the
   * start of the first to the end of the second.
   */
  lemma {:induction false} MergedRunsCluster(values: seq<real>, minCount: real, maxGap: nat,
                                             a1: int, e1: int, a2: int, e2: int)
    requires 0 <= a1 <= e1 && e1 + 1 < a2 <= e2 < |values| && a2 - e1 - 1 <= maxGap
    requires ActiveRuns(values, minCount, a1, e1, a2, e2)
    ensures IsCluster(values, minCount, maxGap, a1, e2)
    ensures forall s, t :: IsCluster(values, minCount, maxGap, s, t) ==> s == a1 && t == e2
  {
    forall x | a1 < x && x + maxGap < e2
      ensures ActiveWithin(values, minCount, maxGap, x)
    {
      if x <= e1 || a2 <= x {
        assert Active(values, minCount, x);
      } else {
        assert Active(values, minCount, a2);
      }
    }
    forall s, t | IsCluster(values, minCount, maxGap, s, t)
      ensures s == a1 && t == e2
    {
      QuietBeforeAt(values, minCount, maxGap, s, s - 1);
      QuietBeforeAt(values, minCount, maxGap, s, e1);
      QuietAfterAt(values, minCount, maxGap, t, t + 1);
      QuietAfterAt(values, minCount, maxGap, t, a2);
    }
  }

  /**
   * Two runs with at most `maxGap` inactive entries between them merge: the result is one
   * band whose span covers both runs and the gap, or nothing when that is shorter than `minSpan`.
   */
  lemma RunsMerge(values: seq<real>, minCount: real, minSpan: int, maxGap: nat,
                  a1: int, e1: int, a2: int, e2: int, bands: seq<Band>)
    requires 0 <= a1 <= e1 && e1 + 1 < a2 <= e2 < |values| && a2 - e1 - 1 <= maxGap
    requires ActiveRuns(values, minCount, a1, e1, a2, e2)
    requires DetectedBands(values, minCount, minSpan, maxGap, bands)
    ensures e2 - a1 + 1 >= minSpan ==>
              |bands| == 1 && bands[0].start == a1 && bands[0].end == e2 && bands[0].span == e2 - a1 + 1
    ensures e2 - a1 + 1 < minSpan ==> bands == []
  {
    MergedRunsCluster(values, minCount, maxGap, a1, e1, a2, e2);
    if |bands| >= 2 {
      SeparatedAt(bands, maxGap, 0, 1);
      assert false;
    }
    if e2 - a1 + 1 >= minSpan {
      ListedNonEmpty(bands, a1, e2);
    } else if |bands| > 0 {
      assert false;
    }
  }

  /** Two runs more than `maxGap` inactive entries apart are two clusters, and the only ones. */
  lemma {:induction false} SeparateRunsClusters(values: seq<real>, minCount: real, maxGap: nat,
                                                a1: int, e1: int, a2: int, e2: int)
    requires 0 <= a1 <= e1 && e1 + 1 < a2 <= e2 < |values| && a2 - e1 - 1 > maxGap
    requires ActiveRuns(values, minCount, a1, e1, a2, e2)
    ensures IsCluster(values, minCount, maxGap, a1, e1) && IsCluster(values, minCount, maxGap, a2, e2)
    ensures forall s, t :: IsCluster(values, minCount, maxGap, s, t) ==>
              (s == a1 && t == e1) || (s == a2 && t == e2)
  {
    forall x | a1 < x && x + maxGap < e1
      ensures ActiveWithin(values, minCount, maxGap, x)
    {
      assert Active(values, minCount, x);
    }
    forall x | a2 < x && x + maxGap < e2
      ensures ActiveWithin(values, minCount, maxGap, x)
    {
      assert Active(values, minCount, x);
    }
    forall s, t | IsCluster(values, minCount, maxGap, s, t)
      ensures (s == a1 && t == e1) || (s == a2 && t == e2)
    {
      QuietBeforeAt(values, minCount, maxGap, s, s - 1);
      QuietAfterAt(values, minCount, maxGap, t, t + 1);
      BridgeAt(values, minCount, maxGap, s, t, e1 + 1);
    }
  }

  /** Two long runs more than `maxGap` inactive entries apart yield two bands, in order. */
  lemma RunsStaySeparate(values: seq<real>, minCount: real, minSpan: int, maxGap: nat,
                         a1: int, e1: int, a2: int, e2: int, bands: seq<Band>)
    requires 0 <= a1 <= e1 && e1 + 1 < a2 <= e2 < |values| && a2 - e1 - 1 > maxGap
    requires e1 - a1 + 1 >= minSpan && e2 - a2 + 1 >= minSpan
    requires ActiveRuns(values, minCount, a1, e1, a2, e2)
    requires DetectedBands(values, minCount, minSpan, maxGap, bands)
    ensures |bands| == 2
    ensures bands[0].start == a1 && bands[0].end == e1 && bands[0].span == e1 - a1 + 1
    ensures bands[1].start == a2 && bands[1].end == e2 && bands[1].span == e2 - a2 + 1
  {
    SeparateRunsClusters(values, minCount, maxGap, a1, e1, a2, e2);
    var k1 :| 0 <= k1 < |bands| && bands[k1].start == a1 && bands[k1].end == e1;
    var k2 :| 0 <= k2 < |bands| && bands[k2].start == a2 && bands[k2].end == e2;
    if |bands| >= 3 {
      SeparatedAt(bands, maxGap, 0, 1);
      SeparatedAt(bands, maxGap, 1, 2);
      assert false;
    }
    SeparatedAt(bands, maxGap, k2, k1);
    SeparatedAt(bands, maxGap, 0, 1);
  }

  /** Unfolds the soundness half of DetectedBands at one position. */
  lemma DetectedAt(values: seq<real>, minCount: real, minSpan: int, maxGap: nat, bands: seq<Band>, k: int)
    ensures DetectedBands(values, minCount, minSpan, maxGap, bands) && 0 <= k < |bands| ==>
              IsBand(values, minCount, minSpan, maxGap, bands[k])
  {
  }

  /** A profile with no entry reaching `minCount` has no band. */
  lemma NoActiveNoBands(values: seq<real>, minCount: real, minSpan: int, maxGap: nat, bands: seq<Band>)
    requires forall j :: 0 <= j < |values| ==> values[j] < minCount
    requires DetectedBands(values, minCount, minSpan, maxGap, bands)
    ensures bands == []
  {
    if |bands| > 0 {
      DetectedAt(values, minCount, minSpan, maxGap, bands, 0);
      assert false;
    }
  }

  /** Consecutive bands are more than `maxGap` entries apart. */
  lemma GapsExceedMaxGap(values: seq<real>, minCount: real, minSpan: int, maxGap: nat, bands: seq<Band>)
    requires DetectedBands(values, minCount, minSpan, maxGap, bands)
    ensures forall k :: 0 <= k < |bands| - 1 ==> bands[k + 1].start - bands[k].end - 1 > maxGap
  {
    forall k | 0 <= k < |bands| - 1
      ensures bands[k + 1].start - bands[k].end - 1 > maxGap
    {
      SeparatedAt(bands, maxGap, k, k + 1);
    }
  }
}
