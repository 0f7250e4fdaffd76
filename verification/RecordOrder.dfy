/** The two orders in which a batch's records are listed. The builder sorts in JavaScript,
    which compares strings by UTF-16 code units; the verifier lists them from the database,
    which compares the bytes of UTF-8, and so code points (section 1 of RFC 3629). */
module RecordOrder {
  import opened AnchorTables

  /** Lexicographic order; a proper prefix comes first. */
  predicate Less(a: seq<int>, b: seq<int>)
    decreases |a|
  {
    if b == [] then false
    else if a == [] then true
    else a[0] < b[0] || (a[0] == b[0] && Less(a[1..], b[1..]))
  }

  function Unit(c: char): seq<int> {
    var n := c as int;
    if n < 0x10000 then [n] else [0xD800 + (n - 0x10000) / 0x400, 0xDC00 + (n - 0x10000) % 0x400]
  }

  /** UTF-16 (section 2.1 of RFC 2781): two surrogates, each with half the bits of what is
      above the basic plane. */
  lemma {:induction false} SurrogatesEncode(c: char)
    requires c as int >= 0x10000
    ensures |Unit(c)| == 2 && 0xD800 <= Unit(c)[0] < 0xDC00 && 0xDC00 <= Unit(c)[1] < 0xE000
    ensures (Unit(c)[0] - 0xD800) * 0x400 + (Unit(c)[1] - 0xDC00) == c as int - 0x10000
  {
  }

  function Units(s: string): seq<int> {
    if s == "" then [] else Unit(s[0]) + Units(s[1..])
  }

  function Points(s: string): seq<int> {
    if s == "" then [] else [s[0] as int] + Points(s[1..])
  }

  predicate ScriptLess(a: string, b: string) { Less(Units(a), Units(b)) }

  predicate DatabaseLess(a: string, b: string) { Less(Points(a), Points(b)) }

  /** A character outside the basic plane against one of its last characters: the surrogates
      that stand for the first sort below the second. */
  predicate Straddle(c: char, d: char) {
    || (c as int >= 0x10000 && 0xE000 <= d as int < 0x10000)
    || (d as int >= 0x10000 && 0xE000 <= c as int < 0x10000)
  }

  /** Where two strings first differ, they straddle. */
  predicate FirstStraddle(a: string, b: string)
    decreases |a|
  {
    if a == "" || b == "" then false
    else if a[0] == b[0] then FirstStraddle(a[1..], b[1..])
    else Straddle(a[0], b[0])
  }

  lemma {:induction false} LessAfter(p: seq<int>, a: seq<int>, b: seq<int>)
    ensures Less(p + a, p + b) == Less(a, b)
    decreases |p|
  {
    if p == [] {
      assert p + a == a && p + b == b;
    } else {
      LessAfter(p[1..], a, b);
      assert (p + a)[1..] == p[1..] + a && (p + b)[1..] == p[1..] + b;
    }
  }

  lemma {:induction false} LessAtHead(x: int, a: seq<int>, y: int, b: seq<int>)
    ensures Less([x] + a, [y] + b) == (x < y || (x == y && Less(a, b)))
  {
  }

  /** Two different characters followed by anything. */
  lemma {:induction false} UnitsAtHead(c: char, a: seq<int>, d: char, b: seq<int>)
    requires c != d
    ensures Less(Unit(c) + a, Unit(d) + b) <==> if Straddle(c, d) then d < c else c < d
  {
  }

  /** The two orders disagree on two strings exactly when they straddle where they first differ. */
  lemma {:induction false} OrdersAgreeUnlessStraddling(a: string, b: string)
    requires a != b
    ensures ScriptLess(a, b) == DatabaseLess(a, b) <==> !FirstStraddle(a, b)
    decreases |a|
  {
    if a == "" {
      UnitsNotEmpty(b);
    } else if b == "" {
      UnitsNotEmpty(a);
    } else if a[0] == b[0] {
      assert a == [a[0]] + a[1..] && b == [b[0]] + b[1..];
      OrdersAgreeUnlessStraddling(a[1..], b[1..]);
      LessAfter(Unit(a[0]), Units(a[1..]), Units(b[1..]));
      LessAfter([a[0] as int], Points(a[1..]), Points(b[1..]));
    } else {
      UnitsAtHead(a[0], Units(a[1..]), b[0], Units(b[1..]));
      LessAtHead(a[0] as int, Points(a[1..]), b[0] as int, Points(b[1..]));
    }
  }

  lemma {:induction false} UnitsNotEmpty(s: string)
    requires s != ""
    ensures Units(s) != [] && Points(s) != []
  {
  }

  // ---- Lists of records ----

  predicate RecordLess(less: (string, string) -> bool, r: Record, s: Record) {
    || less(r.recordType, s.recordType)
    || (r.recordType == s.recordType
        && (|| less(r.recordId, s.recordId)
            || (r.recordId == s.recordId && less(r.recordHash, s.recordHash))))
  }

  const SCRIPT: (string, string) -> bool := (a, b) => ScriptLess(a, b)
  const DATABASE: (string, string) -> bool := (a, b) => DatabaseLess(a, b)

  predicate SortedBy(less: (string, string) -> bool, records: seq<Record>) {
    forall i, j :: 0 <= i < j < |records| ==> RecordLess(less, records[i], records[j])
  }

  /** Record types and hashes are plain: nothing in them can straddle. */
  predicate Plain(s: string) {
    forall i :: 0 <= i < |s| ==> s[i] as int < 0xE000
  }

  predicate PlainRecord(r: Record) {
    Plain(r.recordType) && Plain(r.recordHash)
  }

  /** Two records of one type whose ids straddle. */
  predicate Straddling(r: Record, s: Record) {
    r.recordType == s.recordType && r.recordId != s.recordId && FirstStraddle(r.recordId, s.recordId)
  }

  lemma {:induction false} PlainNeverStraddles(a: string, b: string)
    requires Plain(a) && Plain(b)
    ensures !FirstStraddle(a, b)
    decreases |a|
  {
    if a != "" && b != "" && a[0] == b[0] {
      PlainNeverStraddles(a[1..], b[1..]);
    }
  }

  lemma {:induction false} LessIsAsymmetric(a: seq<int>, b: seq<int>)
    requires Less(a, b)
    ensures !Less(b, a) && a != b
    decreases |a|
  {
    if a != [] && b != [] && a[0] == b[0] {
      LessIsAsymmetric(a[1..], b[1..]);
    }
  }

  lemma {:induction false} SameIsNotLess(a: string)
    ensures !ScriptLess(a, a) && !DatabaseLess(a, a)
  {
    if ScriptLess(a, a) {
      LessIsAsymmetric(Units(a), Units(a));
    }
    if DatabaseLess(a, a) {
      LessIsAsymmetric(Points(a), Points(a));
    }
  }

  lemma {:induction false} AgreeOn(a: string, b: string)
    requires !FirstStraddle(a, b)
    ensures ScriptLess(a, b) == DatabaseLess(a, b)
  {
    if a == b {
      SameIsNotLess(a);
    } else {
      OrdersAgreeUnlessStraddling(a, b);
    }
  }

  /** The orders of records disagree exactly on records that straddle. */
  lemma {:induction false} RecordsAgreeUnlessStraddling(r: Record, s: Record)
    requires PlainRecord(r) && PlainRecord(s)
    ensures RecordLess(SCRIPT, r, s) == RecordLess(DATABASE, r, s) <==> !Straddling(r, s)
  {
    PlainNeverStraddles(r.recordType, s.recordType);
    PlainNeverStraddles(r.recordHash, s.recordHash);
    AgreeOn(r.recordType, s.recordType);
    AgreeOn(r.recordHash, s.recordHash);
    SameIsNotLess(r.recordType);
    if r.recordId != s.recordId {
      OrdersAgreeUnlessStraddling(r.recordId, s.recordId);
    } else {
      NoStraddleWithItself(r.recordId);
      SameIsNotLess(r.recordId);
    }
  }

  lemma {:induction false} NoStraddleWithItself(a: string)
    ensures !FirstStraddle(a, a)
    decreases |a|
  {
    if a != "" {
      NoStraddleWithItself(a[1..]);
    }
  }

  lemma {:induction false} ScriptIsAsymmetric(r: Record, s: Record)
    requires RecordLess(SCRIPT, r, s)
    ensures !RecordLess(SCRIPT, s, r) && r != s
  {
    SameIsNotLess(r.recordType);
    SameIsNotLess(r.recordId);
    SameIsNotLess(r.recordHash);
    if ScriptLess(r.recordType, s.recordType) {
      LessIsAsymmetric(Units(r.recordType), Units(s.recordType));
    } else if ScriptLess(r.recordId, s.recordId) {
      LessIsAsymmetric(Units(r.recordId), Units(s.recordId));
    } else {
      LessIsAsymmetric(Units(r.recordHash), Units(s.recordHash));
    }
  }

  lemma {:induction false} LessIsTransitive(a: seq<int>, b: seq<int>, c: seq<int>)
    requires Less(a, b) && Less(b, c)
    ensures Less(a, c)
    decreases |a|
  {
    if a != [] && a[0] == b[0] == c[0] {
      LessIsTransitive(a[1..], b[1..], c[1..]);
    }
  }

  lemma {:induction false} ScriptIsTransitive(r: Record, s: Record, t: Record)
    requires RecordLess(SCRIPT, r, s) && RecordLess(SCRIPT, s, t)
    ensures RecordLess(SCRIPT, r, t)
  {
    if ScriptLess(r.recordType, s.recordType) && ScriptLess(s.recordType, t.recordType) {
      LessIsTransitive(Units(r.recordType), Units(s.recordType), Units(t.recordType));
    }
    if ScriptLess(r.recordId, s.recordId) && ScriptLess(s.recordId, t.recordId) {
      LessIsTransitive(Units(r.recordId), Units(s.recordId), Units(t.recordId));
    }
    if ScriptLess(r.recordHash, s.recordHash) && ScriptLess(s.recordHash, t.recordHash) {
      LessIsTransitive(Units(r.recordHash), Units(s.recordHash), Units(t.recordHash));
    }
  }

  lemma {:induction false} FirstUnits(s: string)
    requires s != ""
    ensures Units(s) == Unit(s[0]) + Units(s[1..])
  {
  }

  lemma {:induction false} DifferentHeads(a: string, b: string)
    requires a != "" && b != "" && a[0] != b[0]
    ensures ScriptLess(a, b) || ScriptLess(b, a)
  {
    FirstUnits(a);
    FirstUnits(b);
    UnitsAtHead(a[0], Units(a[1..]), b[0], Units(b[1..]));
    UnitsAtHead(b[0], Units(b[1..]), a[0], Units(a[1..]));
  }

  lemma {:induction false} SameHeads(a: string, b: string)
    requires a != "" && b != "" && a[0] == b[0]
    ensures ScriptLess(a, b) == ScriptLess(a[1..], b[1..])
  {
    FirstUnits(a);
    FirstUnits(b);
    LessAfter(Unit(a[0]), Units(a[1..]), Units(b[1..]));
  }

  lemma {:induction false} StringsAreComparable(a: string, b: string)
    requires a != b
    ensures ScriptLess(a, b) || ScriptLess(b, a)
    decreases |a|
  {
    if a == "" {
      UnitsNotEmpty(b);
    } else if b == "" {
      UnitsNotEmpty(a);
    } else if a[0] == b[0] {
      assert a == [a[0]] + a[1..] && b == [b[0]] + b[1..];
      StringsAreComparable(a[1..], b[1..]);
      SameHeads(a, b);
      SameHeads(b, a);
    } else {
      DifferentHeads(a, b);
    }
  }

  lemma {:induction false} ScriptIsTotal(r: Record, s: Record)
    ensures r == s || RecordLess(SCRIPT, r, s) || RecordLess(SCRIPT, s, r)
  {
    if r.recordType != s.recordType {
      StringsAreComparable(r.recordType, s.recordType);
    } else if r.recordId != s.recordId {
      StringsAreComparable(r.recordId, s.recordId);
    } else if r.recordHash != s.recordHash {
      StringsAreComparable(r.recordHash, s.recordHash);
    }
  }

  predicate SameElements(a: seq<Record>, b: seq<Record>) {
    (forall r | r in a :: r in b) && (forall r | r in b :: r in a)
  }

  lemma {:induction false} FirstIsSame(a: seq<Record>, b: seq<Record>)
    requires SortedBy(SCRIPT, a) && SortedBy(SCRIPT, b) && SameElements(a, b) && a != []
    ensures b != [] && a[0] == b[0]
  {
    assert a[0] in b;
    var j :| 0 <= j < |b| && b[j] == a[0];
    assert b[0] in a;
    var i :| 0 <= i < |a| && a[i] == b[0];
    if i > 0 && j > 0 {
      assert RecordLess(SCRIPT, a[0], a[i]) && RecordLess(SCRIPT, b[0], b[j]);
      ScriptIsAsymmetric(a[0], a[i]);
    }
  }

  lemma {:induction false} RestIsSame(a: seq<Record>, b: seq<Record>, r: Record)
    requires SortedBy(SCRIPT, a) && (forall s | s in a :: s in b) && a != [] && b != [] && a[0] == b[0] && r in a[1..]
    ensures r in b[1..]
  {
    var i :| 0 <= i < |a[1..]| && a[1..][i] == r;
    assert a[i + 1] == r && RecordLess(SCRIPT, a[0], a[i + 1]);
    ScriptIsAsymmetric(a[0], r);
    assert r in a;
    var j :| 0 <= j < |b| && b[j] == r;
    assert b[1..][j - 1] == r;
  }

  lemma {:induction false} RestIsSorted(less: (string, string) -> bool, a: seq<Record>)
    requires SortedBy(less, a) && a != []
    ensures SortedBy(less, a[1..])
  {
  }

  lemma {:induction false} OneSortedList(a: seq<Record>, b: seq<Record>)
    requires SortedBy(SCRIPT, a) && SortedBy(SCRIPT, b) && SameElements(a, b)
    ensures a == b
    decreases |a|
  {
    if a == [] {
      if b != [] {
        FirstIsSame(b, a);
      }
    } else {
      FirstIsSame(a, b);
      RestIsSorted(SCRIPT, a);
      RestIsSorted(SCRIPT, b);
      forall r
        ensures r in a[1..] <==> r in b[1..]
      {
        if r in a[1..] {
          RestIsSame(a, b, r);
        }
        if r in b[1..] {
          RestIsSame(b, a, r);
        }
      }
      OneSortedList(a[1..], b[1..]);
      assert a == [a[0]] + a[1..] && b == [b[0]] + b[1..];
    }
  }

  predicate SomeStraddle(records: seq<Record>) {
    exists r, s :: r in records && s in records && Straddling(r, s)
  }

  /** The builder's list and the database's list of the same records are the same list exactly
      when no two of the records straddle. */
  lemma {:induction false} ListsAgreeUnlessStraddling(built: seq<Record>, listed: seq<Record>)
    requires SortedBy(SCRIPT, built) && SortedBy(DATABASE, listed) && SameElements(built, listed)
    requires forall r | r in built :: PlainRecord(r)
    ensures built == listed <==> !SomeStraddle(built)
  {
    if !SomeStraddle(built) {
      forall i, j | 0 <= i < j < |listed|
        ensures RecordLess(SCRIPT, listed[i], listed[j])
      {
        assert listed[i] in listed && listed[j] in listed;
        RecordsAgreeUnlessStraddling(listed[i], listed[j]);
      }
      OneSortedList(built, listed);
    } else {
      var r, s :| r in built && s in built && Straddling(r, s);
      RecordsAgreeUnlessStraddling(r, s);
      if built == listed {
        BothOrders(built, r, s);
      }
    }
  }

  lemma {:induction false} BothOrders(a: seq<Record>, r: Record, s: Record)
    requires SortedBy(SCRIPT, a) && SortedBy(DATABASE, a) && r in a && s in a
    ensures RecordLess(SCRIPT, r, s) ==> RecordLess(DATABASE, r, s)
    ensures RecordLess(DATABASE, r, s) ==> RecordLess(SCRIPT, r, s)
  {
    var i :| 0 <= i < |a| && a[i] == r;
    var j :| 0 <= j < |a| && a[j] == s;
    if RecordLess(SCRIPT, r, s) {
      ScriptIsAsymmetric(r, s);
    }
    if RecordLess(DATABASE, r, s) {
      DatabaseIsAsymmetric(r, s);
    }
  }

  lemma {:induction false} DatabaseIsAsymmetric(r: Record, s: Record)
    requires RecordLess(DATABASE, r, s)
    ensures !RecordLess(DATABASE, s, r) && r != s
  {
    SameIsNotLess(r.recordType);
    SameIsNotLess(r.recordId);
    SameIsNotLess(r.recordHash);
    if DatabaseLess(r.recordType, s.recordType) {
      LessIsAsymmetric(Points(r.recordType), Points(s.recordType));
    } else if DatabaseLess(r.recordId, s.recordId) {
      LessIsAsymmetric(Points(r.recordId), Points(s.recordId));
    } else {
      LessIsAsymmetric(Points(r.recordHash), Points(s.recordHash));
    }
  }

  /** A full-width A and an emoji. */
  const WIDE := "\U{FF21}"
  const EMOJI := "\U{1F600}"

  lemma {:induction false} EmojiStraddlesWide()
    ensures ScriptLess(EMOJI, WIDE) && DatabaseLess(WIDE, EMOJI) && FirstStraddle(WIDE, EMOJI) && WIDE != EMOJI
  {
    UnitsAtHead(EMOJI[0], [], WIDE[0], []);
    assert Units(EMOJI) == Unit(EMOJI[0]) + [] && Units(WIDE) == Unit(WIDE[0]) + [];
  }

  lemma {:induction false} ById(recordType: string, a: string, b: string, hash: string)
    requires ScriptLess(b, a) && DatabaseLess(a, b) && FirstStraddle(a, b) && a != b
    ensures
      var r, s := Record(recordType, a, hash), Record(recordType, b, hash);
      RecordLess(SCRIPT, s, r) && RecordLess(DATABASE, r, s) && SomeStraddle([r, s])
  {
    var r, s := Record(recordType, a, hash), Record(recordType, b, hash);
    assert r in [r, s] && s in [r, s] && Straddling(r, s);
    SameIsNotLess(recordType);
  }

  /** Two receipts named by a full-width A and an emoji are sorted one way by the builder and
      the other way by the database. */
  lemma {:induction false} WideLetterAndEmoji(hash: string)
    ensures
      var wide, emoji := Record("contribution_receipt", WIDE, hash), Record("contribution_receipt", EMOJI, hash);
      && RecordLess(SCRIPT, emoji, wide)
      && RecordLess(DATABASE, wide, emoji)
      && SomeStraddle([wide, emoji])
  {
    EmojiStraddlesWide();
    ById("contribution_receipt", WIDE, EMOJI, hash);
  }
}
