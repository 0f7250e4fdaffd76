/** The dictionaries sent to client components: filtered by key prefix and remembered per
    dictionary object and cache key. */
module ClientDictionary {
  import opened Basics
  import opened Negotiation
  import Routing
  import opened LocaleRouting

  type Entries = map<string, string>

  /** A dictionary object. Its entries never change. */
  class Dictionary {
    const entries: Entries

    constructor (entries: Entries)
      ensures this.entries == entries
    {
      this.entries := entries;
    }
  }

  const ALL_PREFIXES: seq<string> := [
    "agentConnections.", "attemptPresentation.", "common.breadcrumb", "connect.", "controlPlane.",
    "delegationSetup.", "delegationSummary.", "demo.", "event.", "explore.", "firstPath.", "focus.", "gate.",
    "handoff.", "history.timeline.", "integrations.", "journey.", "leanGate.", "ledger.", "localAgent.",
    "marketBoard.", "myWork.", "proofMaps.", "propose.", "publicationDetail.copy.", "receiptVerify.",
    "researchCard.", "researchLauncher.", "review.", "reviewCard.", "reviewQueue.", "reviewWorkspace.",
    "runnerWorkflow.", "settingsPrompt.", "showcase.", "sourceDiff.", "submission.", "window.",
    "workbenchClient.", "workbenchHero.", "workspace.chooseResearch", "workspace.nav", "workspacePath.",
    "workspaceShell.", "workstation."
  ]

  const CORE_PREFIXES: seq<string> := ["common."]

  const GROUPS: map<string, seq<string>> := map[
    "" := ["demo.", "showcase."],
    "connect" := ["connect.", "controlPlane.", "journey."],
    "demo" := ["demo."],
    "evidence" := ["handoff.", "sourceDiff.", "workspace.nav"],
    "explore" := ["explore.", "researchCard."],
    "history" := ["history.timeline."],
    "integrations" := ["integrations."],
    "profile" := ["workspace.nav"],
    "proof-evolution" := ["proofMaps."],
    "propose" := ["propose."],
    "publications" := ["publicationDetail.copy."],
    "receipt" := ["receiptVerify."],
    "reviews" := ["marketBoard.", "review.", "reviewCard.", "reviewQueue.", "reviewWorkspace.", "workspace.nav"],
    "settings" := ["agentConnections.", "controlPlane.", "delegationSetup.", "journey.", "workspace.nav"],
    "workbench" := [
      "attemptPresentation.", "common.breadcrumb", "controlPlane.", "delegationSummary.", "event.", "explore.",
      "firstPath.", "focus.", "gate.", "journey.", "leanGate.", "ledger.", "localAgent.", "myWork.",
      "researchLauncher.", "runnerWorkflow.", "settingsPrompt.", "submission.", "window.", "workbenchClient.",
      "workspace.chooseResearch", "workspace.nav", "workspaceShell.", "workstation."
    ]
  ]

  /** Names every object literal inherits, so that looking one up in the groups finds
      something that is not a list of prefixes. */
  const INHERITED: set<string> := {
    "constructor", "hasOwnProperty", "isPrototypeOf", "propertyIsEnumerable", "toLocaleString", "toString",
    "valueOf", "__proto__", "__defineGetter__", "__defineSetter__", "__lookupGetter__", "__lookupSetter__"
  }

  /** What the groups hold under a section, `None` when it is no list. */
  function Group(section: string): Option<seq<string>> {
    if section in GROUPS then Some(GROUPS[section])
    else if section in INHERITED then None
    else Some(CORE_PREFIXES)
  }

  predicate Kept(key: string, prefixes: seq<string>) {
    exists k :: 0 <= k < |prefixes| && StartsWith(key, prefixes[k])
  }

  function Filtered(entries: Entries, prefixes: seq<string>): Entries {
    map key | key in entries && Kept(key, prefixes) :: entries[key]
  }

  /** Filtering calls a method of the list for every entry: without a list it fails, unless
      there is no entry to call it for. */
  function FilteredBy(entries: Entries, prefixes: Option<seq<string>>): Option<Entries> {
    if prefixes.Some? then Some(Filtered(entries, prefixes.value))
    else if entries == map[] then Some(map[])
    else None
  }

  /** `kept` holds the entries of `all` whose keys begin with one of the prefixes, and no others. */
  ghost predicate EntriesUnder(prefixes: seq<string>, all: Entries, kept: Entries) {
    && (forall key :: key in kept
          <==> key in all && exists prefix :: prefix in prefixes && |prefix| <= |key| && key[..|prefix|] == prefix)
    && (forall key | key in kept :: kept[key] == all[key])
  }

  lemma {:induction false} KeptIsUnderPrefix(key: string, prefixes: seq<string>)
    ensures Kept(key, prefixes)
       <==> exists prefix :: prefix in prefixes && |prefix| <= |key| && key[..|prefix|] == prefix
  {
    if prefix :| prefix in prefixes && |prefix| <= |key| && key[..|prefix|] == prefix {
      var k :| 0 <= k < |prefixes| && prefixes[k] == prefix;
      assert StartsWith(key, prefixes[k]);
    }
  }

  /** Filtering keeps exactly the entries under the prefixes. */
  lemma {:induction false} FilteredIsUnderPrefixes(entries: Entries, prefixes: seq<string>)
    ensures EntriesUnder(prefixes, entries, Filtered(entries, prefixes))
  {
    forall key | key in entries
      ensures key in Filtered(entries, prefixes)
         <==> exists prefix :: prefix in prefixes && |prefix| <= |key| && key[..|prefix|] == prefix
    {
      KeptIsUnderPrefix(key, prefixes);
    }
  }

  function PathKey(section: string): string { "path:" + section }

  /** The prefixes behind a cache key: every key has only one meaning. */
  function PrefixesOf(cacheKey: string): Option<seq<string>> {
    if cacheKey == "all" then Some(ALL_PREFIXES)
    else if cacheKey == "core" then Some(CORE_PREFIXES)
    else if StartsWith(cacheKey, "path:") then Group(cacheKey[5..])
    else None
  }

  lemma {:induction false} KeysNeverCollide(section: string)
    ensures PrefixesOf(PathKey(section)) == Group(section)
    ensures PathKey(section) != "all" && PathKey(section) != "core"
  {
  }

  // ---- The section of a path ----

  function FirstNonEmpty(segments: seq<string>): string {
    if segments == [] then "" else if segments[0] != "" then segments[0] else FirstNonEmpty(segments[1..])
  }

  function Section(pathname: string): string {
    FirstNonEmpty(Routing.Split(StripLocalePrefix(pathname)))
  }

  /** An unprefixed path and its Chinese form have the same section. */
  lemma {:induction false} SectionIgnoresLocale(path: string)
    requires StartsWith(path, "/") && !Prefixed(path)
    ensures Section(PathForLocale(path, ZhCN)) == Section(path)
  {
  }

  // ---- The memo ----

  type Remembered = map<Dictionary, map<string, Dictionary>>

  /** Nothing remembered is ever replaced. */
  predicate Grows(before: Remembered, after: Remembered) {
    forall d, k :: d in before && k in before[d] ==> d in after && k in after[d] && after[d][k] == before[d][k]
  }

  function CacheOf(filtered: Remembered, dictionary: Dictionary): map<string, Dictionary> {
    if dictionary in filtered then filtered[dictionary] else map[]
  }

  /** What is remembered under a key is what filtering by the key's prefixes gives. */
  ghost predicate AllFiltered(filtered: Remembered, meaning: string -> Option<seq<string>>) {
    forall d, k :: d in filtered && k in filtered[d] ==>
      FilteredBy(d.entries, meaning(k)) == Some(filtered[d][k].entries)
  }

  lemma {:induction false} Remember(
    filtered: Remembered, meaning: string -> Option<seq<string>>, d: Dictionary, k: string, made: Dictionary
  )
    requires AllFiltered(filtered, meaning) && k !in CacheOf(filtered, d)
    requires FilteredBy(d.entries, meaning(k)) == Some(made.entries)
    ensures
      var after := filtered[d := CacheOf(filtered, d)[k := made]];
      AllFiltered(after, meaning) && Grows(filtered, after)
  {
  }

  lemma {:induction false} Touch(filtered: Remembered, meaning: string -> Option<seq<string>>, d: Dictionary)
    requires AllFiltered(filtered, meaning)
    ensures
      var after := filtered[d := CacheOf(filtered, d)];
      AllFiltered(after, meaning) && Grows(filtered, after) && CacheOf(after, d) == CacheOf(filtered, d)
  {
  }

  class Memo {
    /** The prefixes each cache key stands for. */
    ghost const meaning: string -> Option<seq<string>>
    var filtered: Remembered

    ghost predicate Valid()
      reads this
    {
      AllFiltered(filtered, meaning)
    }

    /** Every key has the one meaning the module gives it. */
    ghost predicate Shared() {
      forall k :: meaning(k) == PrefixesOf(k)
    }

    constructor ()
      ensures Valid() && Shared() && filtered == map[]
    {
      meaning := k => PrefixesOf(k);
      filtered := map[];
    }

    /** The result is what filtering gives, remembered or not, and is remembered from then
        on; a failure is the filter's own. */
    method FilterDictionary(dictionary: Dictionary, cacheKey: string, prefixes: Option<seq<string>>)
      returns (r: Option<Dictionary>)
      requires Valid() && prefixes == meaning(cacheKey)
      modifies this
      ensures Valid() && Grows(old(filtered), filtered)
      ensures match r
              case Some(result) =>
                && (match prefixes
                    case Some(list) => EntriesUnder(list, dictionary.entries, result.entries)
                    case None => dictionary.entries == result.entries == map[])
                && dictionary in filtered && cacheKey in filtered[dictionary]
                && filtered[dictionary][cacheKey] == result
              case None => prefixes.None? && dictionary.entries != map[]
    {
      if prefixes.Some? {
        FilteredIsUnderPrefixes(dictionary.entries, prefixes.value);
      }
      var cache := CacheOf(filtered, dictionary);
      Touch(filtered, meaning, dictionary);
      filtered := filtered[dictionary := cache];
      if cacheKey in cache {
        return Some(cache[cacheKey]);
      }
      var result := FilteredBy(dictionary.entries, prefixes);
      if result.None? {
        return None;
      }
      var made := new Dictionary(result.value);
      Remember(filtered, meaning, dictionary, cacheKey, made);
      filtered := filtered[dictionary := cache[cacheKey := made]];
      r := Some(made);
    }

    method ClientDictionary(dictionary: Dictionary) returns (r: Dictionary)
      requires Valid() && Shared()
      modifies this
      ensures Valid() && Grows(old(filtered), filtered)
      ensures EntriesUnder(ALL_PREFIXES, dictionary.entries, r.entries)
    {
      var result := FilterDictionary(dictionary, "all", Some(ALL_PREFIXES));
      r := result.value;
    }

    method ClientDictionaryCore(dictionary: Dictionary) returns (r: Dictionary)
      requires Valid() && Shared()
      modifies this
      ensures Valid() && Grows(old(filtered), filtered)
      ensures EntriesUnder(CORE_PREFIXES, dictionary.entries, r.entries)
    {
      var result := FilterDictionary(dictionary, "core", Some(CORE_PREFIXES));
      r := result.value;
    }

    /** Fails exactly for a section that names an inherited member, with entries to filter. */
    method ClientDictionaryForPath(dictionary: Dictionary, pathname: string) returns (r: Option<Dictionary>)
      requires Valid() && Shared()
      modifies this
      ensures Valid() && Grows(old(filtered), filtered)
      ensures r.None? <==> Section(pathname) in INHERITED && dictionary.entries != map[]
      ensures
        var section := Section(pathname);
        var group := if section in GROUPS then GROUPS[section] else CORE_PREFIXES;
        r.Some? && section !in INHERITED ==> EntriesUnder(group, dictionary.entries, r.value.entries)
      ensures r.Some? ==>
                && (Section(pathname) in INHERITED ==> r.value.entries == map[])
                && var key := PathKey(Section(pathname));
                   dictionary in filtered && key in filtered[dictionary] && filtered[dictionary][key] == r.value
    {
      var section := Section(pathname);
      KeysNeverCollide(section);
      InheritedIsNoGroup(section);
      r := FilterDictionary(dictionary, PathKey(section), Group(section));
    }
  }

  lemma {:induction false} InheritedIsNoGroup(section: string)
    ensures Group(section).None? <==> section in INHERITED
  {
  }

  // ---- Sections of paths ----

  lemma {:induction false} SplitLast(s: string, c: char)
    ensures Routing.Split(s + [c])
         == if c == '/' then Routing.Split(s) + [""]
            else var before := Routing.Split(s); before[..|before| - 1] + [before[|before| - 1] + [c]]
  {
    assert (s + [c])[..|s + [c]| - 1] == s;
  }

  lemma {:induction false} LastOfConcat(a: seq<string>, b: seq<string>, x: string)
    requires b != []
    ensures (a + b)[..|a + b| - 1] + [x] == a + (b[..|b| - 1] + [x])
    ensures (a + b)[|a + b| - 1] == b[|b| - 1]
    ensures (a + b) + [x] == a + (b + [x])
  {
  }

  /** Splitting at a slash splits what is before it and what is after it. */
  lemma {:induction false} SplitAtSlash(s: string, t: string)
    ensures Routing.Split(s + "/" + t) == Routing.Split(s) + Routing.Split(t)
    decreases |t|
  {
    if t == "" {
      assert s + "/" + t == s + ['/'];
      SplitLast(s, '/');
    } else {
      var front, c := t[..|t| - 1], t[|t| - 1];
      assert t == front + [c] && s + "/" + t == s + "/" + front + [c];
      SplitAtSlash(s, front);
      SplitLast(front, c);
      SplitLast(s + "/" + front, c);
      var a, b := Routing.Split(s), Routing.Split(front);
      LastOfConcat(a, b, if c == '/' then "" else b[|b| - 1] + [c]);
    }
  }

  lemma {:induction false} OneWord(word: string)
    requires '/' !in word
    ensures Routing.Split(word) == [word]
    decreases |word|
  {
    if word != "" {
      var front, c := word[..|word| - 1], word[|word| - 1];
      assert word == front + [c] && c in word;
      OneWord(front);
      SplitLast(front, c);
    }
  }

  lemma {:induction false} SlashInFront(path: string)
    ensures FirstNonEmpty(Routing.Split("/" + path)) == FirstNonEmpty(Routing.Split(path))
  {
    SplitAtSlash("", path);
    assert "" + "/" + path == "/" + path;
    assert ([""] + Routing.Split(path))[1..] == Routing.Split(path);
  }

  lemma {:induction false} WordInFront(word: string, rest: string)
    requires word != "" && '/' !in word && (rest == "" || rest[0] == '/')
    ensures FirstNonEmpty(Routing.Split(word + rest)) == word
  {
    OneWord(word);
    if rest == "" {
      assert word + rest == word;
    } else {
      SplitAtSlash(word, rest[1..]);
      assert word + rest == word + "/" + rest[1..];
    }
  }

  predicate Slashes(s: string) {
    forall i | 0 <= i < |s| :: s[i] == '/'
  }

  lemma {:induction false} SlashesInFront(slashes: string, path: string)
    requires Slashes(slashes)
    ensures FirstNonEmpty(Routing.Split(slashes + path)) == FirstNonEmpty(Routing.Split(path))
    decreases |slashes|
  {
    if slashes == "" {
      assert slashes + path == path;
    } else {
      SlashesInFront(slashes[1..], path);
      assert slashes + path == "/" + (slashes[1..] + path);
      SlashInFront(slashes[1..] + path);
    }
  }

  /** The section of a path, however many slashes stand in front, is its first word; a path of
      slashes alone has the empty section. */
  lemma {:induction false} SectionIsFirstWord(slashes: string, word: string, rest: string)
    requires Slashes(slashes) && '/' !in word
    requires if word == "" then rest == "" else rest == "" || rest[0] == '/'
    requires !Prefixed(slashes + (word + rest))
    ensures Section(slashes + (word + rest)) == word
  {
    SlashesInFront(slashes, word + rest);
    if word == "" {
      assert word + rest == "";
      assert [""][1..] == [];
    } else {
      WordInFront(word, rest);
    }
  }

  lemma {:induction false} ConstructorSection()
    ensures Section("/constructor") == "constructor"
  {
    var path := "/constructor";
    assert !Prefixed(path) by {
      assert path[1] == 'c';
    }
    assert path == "/" + ("constructor" + "");
    SectionIsFirstWord("/", "constructor", "");
  }

  /** Asked for "/constructor", the filter has no list to work with and fails on any
      dictionary that has an entry. */
  lemma {:induction false} ConstructorFails(entries: Entries)
    requires entries != map[]
    ensures FilteredBy(entries, Group(Section("/constructor"))).None?
  {
    ConstructorSection();
    InheritedIsNoGroup("constructor");
  }
}
