/** Choosing a locale from the parsed entries of an Accept-Language header. */
module Negotiation {
  import opened Basics

  datatype Locale = En | ZhCN

  const DEFAULT_LOCALE := En

  /** One list entry: its tag, trimmed and in lower case, and its weight (1 when absent,
      0 when it is not a number). */
  datatype Entry = Entry(tag: string, quality: real)

  /** The locale a tag asks for, if the site has one for it. */
  function Target(tag: string): Option<Locale> {
    if tag == "en" || StartsWith(tag, "en-") then Some(En)
    else if tag == "zh" || StartsWith(tag, "zh-") then Some(ZhCN)
    else if tag == "*" then Some(DEFAULT_LOCALE)
    else None
  }

  predicate Acceptable(e: Entry) {
    e.tag != "" && e.quality > 0.0
  }

  function Kept(entries: seq<Entry>): seq<Entry> {
    if entries == [] then []
    else
      var last := entries[|entries| - 1];
      Kept(entries[..|entries| - 1]) + (if Acceptable(last) then [last] else [])
  }

  /** Insert after every entry of at least the same quality. */
  function Insert(sorted: seq<Entry>, e: Entry): seq<Entry> {
    if sorted == [] then [e]
    else
      var n := |sorted| - 1;
      if sorted[n].quality >= e.quality then sorted + [e] else Insert(sorted[..n], e) + [sorted[n]]
  }

  /** The stable sort by descending quality. */
  function SortByQuality(entries: seq<Entry>): seq<Entry> {
    if entries == [] then []
    else Insert(SortByQuality(entries[..|entries| - 1]), entries[|entries| - 1])
  }

  /** The first entry the site has a locale for. */
  function FirstMatch(preferences: seq<Entry>): (first: Option<Entry>)
    ensures first.Some? ==> Target(first.value.tag).Some?
  {
    if preferences == [] then None
    else if Target(preferences[0].tag).Some? then Some(preferences[0])
    else FirstMatch(preferences[1..])
  }

  /** `negotiateLocale`. */
  function NegotiateLocale(acceptLanguage: Option<seq<Entry>>): Locale {
    if acceptLanguage.None? then DEFAULT_LOCALE
    else
      var first := FirstMatch(SortByQuality(Kept(acceptLanguage.value)));
      if first.Some? then Target(first.value.tag).value else DEFAULT_LOCALE
  }

  // ----- What it chooses ------------------------------------------------------------------

  predicate Candidate(e: Entry) {
    Acceptable(e) && Target(e.tag).Some?
  }

  /** Entry `i` is the earliest of the candidates of the highest quality. */
  ghost predicate IsBest(entries: seq<Entry>, i: nat) {
    && i < |entries|
    && Candidate(entries[i])
    && forall j | 0 <= j < |entries| && Candidate(entries[j]) ::
         entries[j].quality < entries[i].quality || (entries[j].quality == entries[i].quality && i <= j)
  }

  ghost predicate Descending(list: seq<Entry>) {
    forall i, j | 0 <= i < j < |list| :: list[i].quality >= list[j].quality
  }

  lemma {:induction false} InsertKeepsOrder(sorted: seq<Entry>, e: Entry)
    requires Descending(sorted)
    ensures Descending(Insert(sorted, e))
    ensures forall x :: x in Insert(sorted, e) <==> x == e || x in sorted
  {
    if sorted != [] {
      var n := |sorted| - 1;
      if sorted[n].quality < e.quality {
        InsertKeepsOrder(sorted[..n], e);
        var head := Insert(sorted[..n], e);
        assert sorted == sorted[..n] + [sorted[n]];
        forall i | 0 <= i < |head|
          ensures head[i].quality >= sorted[n].quality
        {
          assert head[i] in head;
        }
      }
    }
  }

  lemma {:induction false} SortIsDescending(entries: seq<Entry>)
    ensures Descending(SortByQuality(entries))
  {
    if entries != [] {
      SortIsDescending(entries[..|entries| - 1]);
      InsertKeepsOrder(SortByQuality(entries[..|entries| - 1]), entries[|entries| - 1]);
    }
  }

  lemma {:induction false} FirstMatchOfConcat(a: seq<Entry>, b: seq<Entry>)
    ensures FirstMatch(a + b) == if FirstMatch(a).Some? then FirstMatch(a) else FirstMatch(b)
  {
    if a == [] {
      assert a + b == b;
    } else {
      assert (a + b)[1..] == a[1..] + b;
      FirstMatchOfConcat(a[1..], b);
    }
  }

  lemma {:induction false} FirstMatchIsIn(list: seq<Entry>)
    ensures FirstMatch(list).Some? ==> FirstMatch(list).value in list && Target(FirstMatch(list).value.tag).Some?
  {
    if list != [] {
      FirstMatchIsIn(list[1..]);
    }
  }

  /** The winner once `e` has arrived after `winner`. */
  function Winner(winner: Option<Entry>, e: Entry): Option<Entry> {
    if Target(e.tag).None? then winner
    else if winner.None? || e.quality > winner.value.quality then Some(e)
    else winner
  }

  lemma {:induction false} InsertDecides(sorted: seq<Entry>, e: Entry)
    requires Descending(sorted)
    ensures FirstMatch(Insert(sorted, e)) == Winner(FirstMatch(sorted), e)
  {
    if sorted == [] {
      assert [e][1..] == [];
    } else {
      var n := |sorted| - 1;
      var head, last := sorted[..n], sorted[n];
      assert sorted == head + [last];
      assert [e][1..] == [] && [last][1..] == [];
      FirstMatchOfConcat(head, [last]);
      FirstMatchIsIn(sorted);
      FirstMatchIsIn(head);
      if last.quality >= e.quality {
        FirstMatchOfConcat(sorted, [e]);
      } else {
        InsertDecides(head, e);
        FirstMatchOfConcat(Insert(head, e), [last]);
      }
    }
  }

  lemma {:induction false} KeptOfLast(entries: seq<Entry>)
    requires entries != []
    ensures
      var before, last := entries[..|entries| - 1], entries[|entries| - 1];
      FirstMatch(SortByQuality(Kept(entries)))
      == if Acceptable(last) then Winner(FirstMatch(SortByQuality(Kept(before))), last)
         else FirstMatch(SortByQuality(Kept(before)))
  {
    var before, last := entries[..|entries| - 1], entries[|entries| - 1];
    if Acceptable(last) {
      assert Kept(entries)[..|Kept(entries)| - 1] == Kept(before);
      SortIsDescending(Kept(before));
      InsertDecides(SortByQuality(Kept(before)), last);
    } else {
      assert Kept(entries) == Kept(before);
    }
  }

  /** `best` is the best entry, or there is no candidate. */
  ghost predicate BestOf(entries: seq<Entry>, best: Option<nat>) {
    if best.Some? then IsBest(entries, best.value)
    else forall j | 0 <= j < |entries| :: !Candidate(entries[j])
  }

  function BetterOf(entries: seq<Entry>, best: Option<nat>, n: nat): Option<nat>
    requires n < |entries| && (best.Some? ==> best.value < n)
  {
    if Candidate(entries[n]) && (best.None? || entries[n].quality > entries[best.value].quality) then Some(n) else best
  }

  lemma {:induction false} BestGrows(entries: seq<Entry>, best: Option<nat>)
    requires entries != []
    requires BestOf(entries[..|entries| - 1], best)
    ensures BestOf(entries, BetterOf(entries, best, |entries| - 1))
  {
  }

  /** Filter, stable sort and scan find the best entry if there is a candidate at all. */
  lemma {:induction false} ScanFindsBest(entries: seq<Entry>) returns (best: Option<nat>)
    ensures BestOf(entries, best)
    ensures FirstMatch(SortByQuality(Kept(entries))) == if best.Some? then Some(entries[best.value]) else None
  {
    if entries == [] {
      return None;
    }
    var n := |entries| - 1;
    var before := ScanFindsBest(entries[..n]);
    KeptOfLast(entries);
    BestGrows(entries, before);
    best := BetterOf(entries, before, n);
  }

  /** The locale is the one the best entry asks for, and the default if no entry is a candidate. */
  lemma {:induction false} NegotiationChoosesBest(entries: seq<Entry>)
    ensures forall i: nat | IsBest(entries, i) :: NegotiateLocale(Some(entries)) == Target(entries[i].tag).value
    ensures (forall i | 0 <= i < |entries| :: !Candidate(entries[i]))
        ==> NegotiateLocale(Some(entries)) == DEFAULT_LOCALE
    ensures (exists i | 0 <= i < |entries| :: Candidate(entries[i])) ==> exists i: nat :: IsBest(entries, i)
  {
    var best := ScanFindsBest(entries);
    forall i: nat | IsBest(entries, i)
      ensures best == Some(i)
    {
    }
  }

  /** The tag is the language itself or one of its regional forms. */
  predicate InLanguage(tag: string, language: string) {
    tag == language || (|tag| > |language| && tag[..|language|] == language && tag[|language|] == '-')
  }

  /** An entry with a positive weight and a tag the site knows. */
  predicate Weighs(e: Entry) {
    e.quality > 0.0 && (InLanguage(e.tag, "en") || InLanguage(e.tag, "zh") || e.tag == "*")
  }

  /** Nothing before it weighs as much, and nothing after it weighs more. */
  predicate Heaviest(entries: seq<Entry>, i: nat) {
    && i < |entries|
    && Weighs(entries[i])
    && (forall j | 0 <= j < i && Weighs(entries[j]) :: entries[j].quality < entries[i].quality)
    && (forall j | i < j < |entries| && Weighs(entries[j]) :: entries[j].quality <= entries[i].quality)
  }

  lemma {:induction false} WeighsMeans(e: Entry)
    ensures Weighs(e) <==> Candidate(e)
    ensures Weighs(e) ==> (Target(e.tag) == Some(ZhCN) <==> InLanguage(e.tag, "zh"))
    ensures Target(e.tag) in {None, Some(En), Some(ZhCN)}
  {
    LanguageMeans(e.tag, "en");
    LanguageMeans(e.tag, "zh");
    assert InLanguage(e.tag, "en") ==> e.tag[0] == 'e';
    assert InLanguage(e.tag, "zh") ==> e.tag[0] == 'z';
  }

  lemma {:induction false} LanguageMeans(tag: string, language: string)
    ensures InLanguage(tag, language) <==> tag == language || StartsWith(tag, language + "-")
  {
    var n := |language|;
    if |tag| > n && tag[..n] == language && tag[n] == '-' {
      assert tag[..n + 1] == language + "-";
    }
    if StartsWith(tag, language + "-") {
      assert tag[..n] == tag[..n + 1][..n] && tag[n] == tag[..n + 1][n];
    }
  }

  /** The site answers in Chinese exactly when the heaviest entry asks for Chinese, and in
      English otherwise: also when there is no header, or nothing in it weighs. */
  lemma {:induction false} ChineseIffHeaviest(entries: seq<Entry>)
    ensures NegotiateLocale(Some(entries)) == ZhCN
       <==> exists i: nat :: Heaviest(entries, i) && InLanguage(entries[i].tag, "zh")
    ensures NegotiateLocale(None) == En
  {
    NegotiationChoosesBest(entries);
    forall i | 0 <= i < |entries|
      ensures Weighs(entries[i]) <==> Candidate(entries[i])
      ensures Weighs(entries[i]) ==> (Target(entries[i].tag) == Some(ZhCN) <==> InLanguage(entries[i].tag, "zh"))
    {
      WeighsMeans(entries[i]);
    }
    forall i: nat
      ensures Heaviest(entries, i) <==> IsBest(entries, i)
    {
    }
  }
}
