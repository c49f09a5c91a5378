// The loops of gps/libloc_api_50001/loc_eng_nmea.cpp that decide what goes into GSV and
// GSA sentences (section 5, data format, of NMEA 0183); text formatting is left out.
module Nmea {

  datatype Satellite = Satellite(prn: int, elevation: real, azimuth: real, snr: real)

  /** One satellite of a GSV sentence; no fourth field without signal. */
  datatype Entry = Entry(prn: int, elevation: int, azimuth: int, snr: seq<int>)

  datatype Sentence = Blank | Gsv(total: int, number: int, inView: int, entries: seq<Entry>)

  /** (int)(0.5 + x): rounded for x above -1/2, cut off towards zero below. */
  function Round(x: real): int {
    var y := 0.5 + x;
    if y >= 0.0 then y.Floor else -((-y).Floor)
  }

  function EntryOf(s: Satellite): Entry {
    Entry(s.prn, Round(s.elevation), Round(s.azimuth), if s.snr > 0.0 then [Round(s.snr)] else [])
  }

  function EntriesOf(svs: seq<Satellite>): seq<Entry> {
    if svs == [] then [] else EntriesOf(svs[..|svs| - 1]) + [EntryOf(svs[|svs| - 1])]
  }

  /** Rounding to the nearest, halves up, but towards zero below -1/2. */
  lemma RoundIs(x: real)
    ensures var n := Round(x) as real;
      if x >= -0.5 then n - 0.5 <= x < n + 0.5 else n - 1.5 < x <= n - 0.5
  {
  }

  /** Each entry gives its own satellite's number, elevation and azimuth, and its signal if
      there is any. */
  lemma {:induction false} EntriesAre(svs: seq<Satellite>, i: nat)
    requires i < |svs|
    ensures |EntriesOf(svs)| == |svs|
    ensures var e, s := EntriesOf(svs)[i], svs[i];
      && e.prn == s.prn && e.elevation == Round(s.elevation) && e.azimuth == Round(s.azimuth)
      && e.snr == if s.snr <= 0.0 then [] else [Round(s.snr)]
  {
    hide Round;
    var n := |svs| - 1;
    if n > 0 {
      EntriesAre(svs[..n], if i < n then i else 0);
    }
  }

  function AllEntries(sentences: seq<Sentence>): seq<Entry> {
    if sentences == [] then []
    else
      var last := sentences[|sentences| - 1];
      AllEntries(sentences[..|sentences| - 1]) + if last.Gsv? then last.entries else []
  }

  lemma NoEntries()
    ensures EntriesOf([]) == [] && AllEntries([]) == []
  {
  }

  lemma AllEntriesSnoc(sentences: seq<Sentence>, last: Sentence)
    requires last.Gsv?
    ensures AllEntries(sentences + [last]) == AllEntries(sentences) + last.entries
  {
    assert (sentences + [last])[..|sentences|] == sentences;
  }

  /** The entries of one sentence: the next four satellites, or those left. */
  method NextFour(svs: seq<Satellite>, first: int) returns (entries: seq<Entry>, svNumber: int)
    requires 1 <= first <= |svs| + 1
    ensures svNumber == if first + 4 <= |svs| + 1 then first + 4 else |svs| + 1
    ensures |entries| == svNumber - first
    ensures EntriesOf(svs[..svNumber - 1]) == EntriesOf(svs[..first - 1]) + entries
  {
    var i := 0;
    svNumber, entries := first, [];
    while svNumber <= |svs| && i < 4
      invariant 0 <= i <= 4 && svNumber == first + i <= |svs| + 1 && |entries| == i
      invariant EntriesOf(svs[..svNumber - 1]) == EntriesOf(svs[..first - 1]) + entries
    {
      assert svs[..svNumber][..svNumber - 1] == svs[..svNumber - 1];
      entries := entries + [EntryOf(svs[svNumber - 1])];
      i, svNumber := i + 1, svNumber + 1;
    }
  }

  /** Four satellites to a sentence: with n > 0 in view, ceil(n / 4) sentences numbered from
      1, none empty, that list every satellite once and in order; otherwise one blank. */
  method GenerateGsv(svs: seq<Satellite>) returns (sentences: seq<Sentence>)
    ensures svs == [] ==> sentences == [Blank]
    ensures svs != [] ==>
      && 4 * |sentences| - 4 < |svs| <= 4 * |sentences|
      && (forall k :: 0 <= k < |sentences| ==>
        sentences[k].Gsv? && sentences[k].total == |sentences| && sentences[k].number == k + 1
        && sentences[k].inView == |svs| && 1 <= |sentences[k].entries| <= 4)
      && (forall k :: 0 <= k < |sentences| - 1 ==> |sentences[k].entries| == 4)
      && AllEntries(sentences) == EntriesOf(svs)
  {
    if |svs| <= 0 {
      return [Blank];
    }
    hide EntriesOf, AllEntries;
    var svCount := |svs|;
    var sentenceCount := svCount / 4;
    if svCount % 4 != 0 {
      sentenceCount := sentenceCount + 1;
    }
    var sentenceNumber, svNumber := 1, 1;
    NoEntries();
    assert svs[..0] == [];
    sentences := [];
    while sentenceNumber <= sentenceCount
      invariant 1 <= sentenceNumber <= sentenceCount + 1 && |sentences| == sentenceNumber - 1
      invariant svNumber - 1 == if 4 * |sentences| <= svCount then 4 * |sentences| else svCount
      invariant forall k :: 0 <= k < |sentences| ==>
        sentences[k].Gsv? && sentences[k].total == sentenceCount && sentences[k].number == k + 1
        && sentences[k].inView == |svs| && 1 <= |sentences[k].entries| <= 4
      invariant forall k :: 0 <= k < |sentences| && 4 * (k + 1) <= svCount ==> |sentences[k].entries| == 4
      invariant AllEntries(sentences) == EntriesOf(svs[..svNumber - 1])
    {
      var entries;
      entries, svNumber := NextFour(svs, svNumber);
      var sentence := Gsv(sentenceCount, sentenceNumber, svCount, entries);
      AllEntriesSnoc(sentences, sentence);
      sentences := sentences + [sentence];
      sentenceNumber := sentenceNumber + 1;
    }
    assert svs[..svCount] == svs;
  }

  // ---------------------------------------------------------------- satellites used

  function Pow2(n: nat): nat {
    if n == 0 then 1 else 2 * Pow2(n - 1)
  }

  /** The mask that a list of 1-based positions stands for. */
  function MaskOf(list: seq<nat>): nat
    requires forall k :: 0 <= k < |list| ==> list[k] >= 1
  {
    if list == [] then 0 else MaskOf(list[..|list| - 1]) + Pow2(list[|list| - 1] - 1)
  }

  predicate Ascending(list: seq<nat>) {
    forall j, k :: 0 <= j < k < |list| ==> list[j] < list[k]
  }

  lemma NoMask()
    ensures MaskOf([]) == 0
  {
  }

  lemma MaskSnoc(list: seq<nat>, i: nat)
    requires i >= 1 && forall k :: 0 <= k < |list| ==> list[k] >= 1
    ensures MaskOf(list + [i]) == MaskOf(list) + Pow2(i - 1)
  {
    assert (list + [i])[..|list|] == list;
  }

  lemma Pow2Values()
    ensures Pow2(0) == 1 && Pow2(32) == 0x1_0000_0000
  {
    assert Pow2(8) == 256;
    assert Pow2(16) == 0x1_0000;
    assert Pow2(24) == 0x100_0000;
  }

  lemma Pow2Doubles(n: nat)
    ensures n > 0 ==> Pow2(n) == 2 * Pow2(n - 1)
  {
  }

  lemma Doubling(m: nat, p: nat)
    ensures m * p == m % 2 * p + m / 2 * (2 * p)
  {
    assert m == m % 2 + 2 * (m / 2);
  }

  /** Lists the set bits of a 32-bit mask by position, strictly ascending from 1; the list
      determines the mask. */
  method SvUsedList(usedMask: nat) returns (list: seq<nat>)
    requires usedMask < 0x1_0000_0000
    ensures forall k :: 0 <= k < |list| ==> 1 <= list[k] <= 32
    ensures Ascending(list) && |list| <= 32
    ensures MaskOf(list) == usedMask
  {
    hide Pow2, MaskOf;
    NoMask();
    list := [];
    var mask: nat, i := usedMask, 1;
    Pow2Values();
    while mask > 0 && |list| < 32
      invariant 1 <= i <= 33 && |list| < i && mask < Pow2(33 - i)
      invariant forall k :: 0 <= k < |list| ==> 1 <= list[k] < i
      invariant Ascending(list)
      invariant usedMask == MaskOf(list) + mask * Pow2(i - 1)
      decreases mask
    {
      Pow2Values();
      Pow2Doubles(33 - i);
      Pow2Doubles(i);
      Doubling(mask, Pow2(i - 1));
      if mask % 2 == 1 {
        MaskSnoc(list, i);
        list := list + [i];
      }
      mask := mask / 2;
      i := i + 1;
    }
    Pow2Values();
    assert mask == 0 && 0 * Pow2(i - 1) == 0;
  }

  lemma {:induction false} Pow2Positive(n: nat)
    ensures Pow2(n) >= 1
  {
    if n > 0 {
      Pow2Positive(n - 1);
    }
  }

  lemma {:induction false} Pow2Grows(m: nat, n: nat)
    requires m <= n
    ensures Pow2(m) <= Pow2(n)
    decreases n
  {
    if m < n {
      Pow2Positive(n - 1);
      Pow2Grows(m, n - 1);
    }
  }

  /** An ascending list stands for less than the next power of two. */
  lemma {:induction false} MaskBelow(list: seq<nat>)
    requires list != [] && Ascending(list) && forall k :: 0 <= k < |list| ==> list[k] >= 1
    ensures Pow2(list[|list| - 1] - 1) <= MaskOf(list) < Pow2(list[|list| - 1])
    decreases |list|
  {
    var n := |list| - 1;
    if n > 0 {
      MaskBelow(list[..n]);
      Pow2Grows(list[n - 1], list[n] - 1);
    } else {
      assert list[..0] == [];
      Pow2Positive(list[0] - 1);
    }
  }

  /** The list of a mask is the only ascending one that stands for it. */
  lemma {:induction false} ListDeterminesMask(a: seq<nat>, b: seq<nat>)
    requires Ascending(a) && Ascending(b)
    requires forall k :: 0 <= k < |a| ==> a[k] >= 1
    requires forall k :: 0 <= k < |b| ==> b[k] >= 1
    requires MaskOf(a) == MaskOf(b)
    ensures a == b
    decreases |a|
  {
    if a == [] || b == [] {
      if a != [] { Pow2Positive(a[|a| - 1] - 1); }
      if b != [] { Pow2Positive(b[|b| - 1] - 1); }
    } else {
      var m, n := |a| - 1, |b| - 1;
      MaskBelow(a);
      MaskBelow(b);
      if a[m] < b[n] {
        Pow2Grows(a[m], b[n] - 1);
      } else if b[n] < a[m] {
        Pow2Grows(b[n], a[m] - 1);
      } else {
        ListDeterminesMask(a[..m], b[..n]);
        assert a == a[..m] + [a[m]] && b == b[..n] + [b[n]];
      }
    }
  }
}
