/** Looking a string up and filling in its `{name}` placeholders in one scan. */
module Translation {
  import opened Basics

  type Vars = map<string, string>

  predicate WordChar(c: char) {
    'A' <= c <= 'Z' || 'a' <= c <= 'z' || '0' <= c <= '9' || c == '_'
  }

  predicate IsWord(s: string) {
    s != "" && forall i :: 0 <= i < |s| ==> WordChar(s[i])
  }

  /** How many word characters `s` begins with. */
  function WordLength(s: string): (n: nat)
    ensures n <= |s|
    ensures forall i :: 0 <= i < n ==> WordChar(s[i])
    ensures n < |s| ==> !WordChar(s[n])
  {
    if s == "" || !WordChar(s[0]) then 0
    else
      var n := WordLength(s[1..]);
      assert forall i :: 1 <= i < n + 1 ==> s[i] == s[1..][i - 1];
      n + 1
  }

  /** The placeholder `s` begins with: the name between the braces. */
  function Placeholder(s: string): Option<string> {
    if s == "" || s[0] != '{' then None
    else
      var n := WordLength(s[1..]);
      if n > 0 && n + 1 < |s| && s[n + 1] == '}' then Some(s[1..n + 1]) else None
  }

  function Braced(name: string): string { "{" + name + "}" }

  /** What a placeholder becomes; without a variable of that name it stays. */
  function Filled(name: string, vars: Vars): string {
    if name in vars then vars[name] else Braced(name)
  }

  /** How far one step of the scan moves: past a placeholder, or by one character. */
  function Taken(s: string): (n: nat)
    requires s != ""
    ensures 0 < n <= |s|
  {
    match Placeholder(s) case Some(name) => |name| + 2 case None => 1
  }

  function Emitted(s: string, vars: Vars): string
    requires s != ""
  {
    match Placeholder(s) case Some(name) => Filled(name, vars) case None => [s[0]]
  }

  /** The scan: at each position replace the placeholder there, or copy one character. */
  function Interpolate(s: string, vars: Vars): string
    decreases |s|
  {
    if s == "" then "" else Emitted(s, vars) + Interpolate(s[Taken(s)..], vars)
  }

  function Translate(dictionary: map<string, string>, key: string, vars: Option<Vars>): string {
    var template := if key in dictionary then dictionary[key] else key;
    if vars.None? then template else Interpolate(template, vars.value)
  }

  // ---- Where placeholders are ----

  lemma {:induction false} WordEndsAt(s: string, word: string, rest: string)
    requires s == word + rest && (rest == "" || !WordChar(rest[0]))
    requires forall i :: 0 <= i < |word| ==> WordChar(word[i])
    ensures WordLength(s) == |word|
  {
    assert forall i :: 0 <= i < |word| ==> s[i] == word[i];
    assert rest != "" ==> s[|word|] == rest[0];
  }

  lemma {:induction false} BracedIsPlaceholder(name: string, rest: string)
    requires IsWord(name)
    ensures Placeholder(Braced(name) + rest) == Some(name)
  {
    var s := Braced(name) + rest;
    assert s[1..] == name + ("}" + rest);
    WordEndsAt(s[1..], name, "}" + rest);
    assert s[1..|name| + 1] == name;
  }

  lemma {:induction false} PlaceholderIsBraced(s: string)
    requires Placeholder(s).Some?
    ensures var name := Placeholder(s).value; IsWord(name) && s == Braced(name) + s[|name| + 2..]
  {
  }

  lemma {:induction false} Regroup(p: string, q: string, r: string)
    ensures p + (q + r) == (p + q) + r
  {
  }

  lemma {:induction false} AfterFirst(a: string, b: string, n: nat)
    requires n < |a|
    ensures (a + b)[1..] == a[1..][..n] + (a[1..][n..] + b)
  {
    var w := a[1..];
    assert (a + b)[1..] == w + b;
    assert w == w[..n] + w[n..];
    Regroup(w[..n], w[n..], b);
  }

  /** What follows cannot complete or spoil a placeholder that text `a` begins with, as long
      as it starts with a brace of its own. */
  lemma {:induction false} SamePlaceholder(a: string, b: string)
    requires a != "" && b != "" && b[0] == '{'
    ensures Placeholder(a + b) == Placeholder(a)
  {
    var s := a + b;
    if a[0] == '{' {
      var n := WordLength(a[1..]);
      AfterFirst(a, b, n);
      WordEndsAt(s[1..], a[1..][..n], a[1..][n..] + b);
      if n + 1 < |a| {
        assert s[n + 1] == a[n + 1];
        assert s[1..n + 1] == a[1..n + 1];
      } else {
        assert s[n + 1] == b[0];
      }
    }
  }

  lemma {:induction false} SameStep(a: string, tail: string, vars: Vars)
    requires a != "" && tail != "" && tail[0] == '{'
    ensures Emitted(a + tail, vars) == Emitted(a, vars) && Taken(a + tail) == Taken(a)
    ensures (a + tail)[Taken(a)..] == a[Taken(a)..] + tail
  {
    SamePlaceholder(a, tail);
  }

  lemma {:induction false} OneStepOf(s: string, vars: Vars)
    requires s != ""
    ensures Interpolate(s, vars) == Emitted(s, vars) + Interpolate(s[Taken(s)..], vars)
  {
  }

  lemma {:induction false} OneStep(a: string, tail: string, vars: Vars)
    requires a != "" && tail != "" && tail[0] == '{'
    ensures Interpolate(a, vars) == Emitted(a, vars) + Interpolate(a[Taken(a)..], vars)
    ensures Interpolate(a + tail, vars) == Emitted(a, vars) + Interpolate(a[Taken(a)..] + tail, vars)
  {
    SameStep(a, tail, vars);
    OneStepOf(a, vars);
    OneStepOf(a + tail, vars);
  }

  /** The scan splits in front of any brace. */
  lemma {:induction false} ScanSplits(a: string, tail: string, vars: Vars)
    requires tail != "" && tail[0] == '{'
    ensures Interpolate(a + tail, vars) == Interpolate(a, vars) + Interpolate(tail, vars)
    decreases |a|
  {
    if a == "" {
      assert a + tail == tail;
    } else {
      OneStep(a, tail, vars);
      var rest := a[Taken(a)..];
      ScanSplits(rest, tail, vars);
      Regroup(Emitted(a, vars), Interpolate(rest, vars), Interpolate(tail, vars));
    }
  }

  lemma {:induction false} HoleFirst(name: string, b: string, vars: Vars)
    requires IsWord(name)
    ensures Interpolate(Braced(name) + b, vars) == Filled(name, vars) + Interpolate(b, vars)
  {
    BracedIsPlaceholder(name, b);
    assert (Braced(name) + b)[|name| + 2..] == b;
  }

  /** The scan of text followed by a placeholder is the scan of the text, the placeholder's
      value as it is, and the scan of the rest. */
  lemma {:induction false} EveryPlaceholderIsFilled(a: string, name: string, b: string, vars: Vars)
    requires IsWord(name)
    ensures Interpolate(a + "{" + name + "}" + b, vars)
         == Interpolate(a, vars) + (if name in vars then vars[name] else "{" + name + "}") + Interpolate(b, vars)
  {
    assert a + "{" + name + "}" + b == a + (Braced(name) + b);
    ScanSplits(a, Braced(name) + b, vars);
    HoleFirst(name, b, vars);
    Regroup(Interpolate(a, vars), Filled(name, vars), Interpolate(b, vars));
  }

  // ---- Templates as pieces ----

  datatype Piece = Text(text: string) | Hole(name: string)

  /** Text that contains no placeholder. */
  predicate Plain(s: string) {
    forall i :: 0 <= i < |s| ==> Placeholder(s[i..]).None?
  }

  /** Plain text and placeholders in turn, starting and ending with text. */
  predicate IsTemplate(pieces: seq<Piece>)
    decreases |pieces|
  {
    if |pieces| == 0 then false
    else if |pieces| == 1 then pieces[0].Text? && Plain(pieces[0].text)
    else
      && pieces[0].Text?
      && Plain(pieces[0].text)
      && pieces[1].Hole?
      && IsWord(pieces[1].name)
      && IsTemplate(pieces[2..])
  }

  function Written(pieces: seq<Piece>): string
    decreases |pieces|
  {
    if pieces == [] then ""
    else (match pieces[0] case Text(text) => text case Hole(name) => Braced(name)) + Written(pieces[1..])
  }

  function FilledIn(pieces: seq<Piece>, vars: Vars): string
    decreases |pieces|
  {
    if pieces == [] then ""
    else (match pieces[0] case Text(text) => text case Hole(name) => Filled(name, vars)) + FilledIn(pieces[1..], vars)
  }

  lemma {:induction false} PlainTail(s: string)
    requires s != "" && Plain(s)
    ensures Placeholder(s).None? && Plain(s[1..])
  {
    assert s[0..] == s;
    forall i | 0 <= i < |s[1..]|
      ensures Placeholder(s[1..][i..]).None?
    {
      assert s[1..][i..] == s[i + 1..];
    }
  }

  lemma {:induction false} PlainIsCopied(s: string, vars: Vars)
    requires Plain(s)
    ensures Interpolate(s, vars) == s
    decreases |s|
  {
    if s != "" {
      PlainTail(s);
      PlainIsCopied(s[1..], vars);
      assert s == [s[0]] + s[1..];
    }
  }

  lemma {:induction false} TwoPieces(pieces: seq<Piece>, vars: Vars)
    requires |pieces| > 1 && pieces[0].Text? && pieces[1].Hole?
    ensures Written(pieces) == pieces[0].text + Braced(pieces[1].name) + Written(pieces[2..])
    ensures FilledIn(pieces, vars) == pieces[0].text + Filled(pieces[1].name, vars) + FilledIn(pieces[2..], vars)
  {
    assert pieces[1..][0] == pieces[1] && pieces[1..][1..] == pieces[2..];
    Regroup(pieces[0].text, Braced(pieces[1].name), Written(pieces[2..]));
    Regroup(pieces[0].text, Filled(pieces[1].name, vars), FilledIn(pieces[2..], vars));
  }

  lemma {:induction false} OnePiece(pieces: seq<Piece>, vars: Vars)
    requires |pieces| == 1 && pieces[0].Text?
    ensures Written(pieces) == FilledIn(pieces, vars) == pieces[0].text
  {
  }

  lemma {:induction false} BracesJoin(a: string, name: string, b: string)
    ensures a + "{" + name + "}" + b == a + Braced(name) + b
  {
  }

  /** The meaning of a template: its text stays, each placeholder is replaced by its own
      variable in its own place, and nothing that was filled in is looked at again. */
  lemma {:induction false} TemplatesMean(pieces: seq<Piece>, vars: Vars)
    requires IsTemplate(pieces)
    ensures Interpolate(Written(pieces), vars) == FilledIn(pieces, vars)
    decreases |pieces|
  {
    PlainIsCopied(pieces[0].text, vars);
    if |pieces| == 1 {
      OnePiece(pieces, vars);
    } else {
      TwoPieces(pieces, vars);
      EveryPlaceholderIsFilled(pieces[0].text, pieces[1].name, Written(pieces[2..]), vars);
      BracesJoin(pieces[0].text, pieces[1].name, Written(pieces[2..]));
      TemplatesMean(pieces[2..], vars);
    }
  }

  // ---- Every string is a template ----

  function Pieces(s: string, text: string): seq<Piece>
    decreases |s|
  {
    if s == "" then [Text(text)]
    else match Placeholder(s)
      case Some(name) => [Text(text), Hole(name)] + Pieces(s[|name| + 2..], "")
      case None => Pieces(s[1..], text + [s[0]])
  }

  lemma {:induction false} PlaceholderExtends(a: string, b: string)
    requires Placeholder(a).Some?
    ensures Placeholder(a + b) == Placeholder(a)
  {
    PlaceholderIsBraced(a);
    var name := Placeholder(a).value;
    assert a + b == Braced(name) + (a[|name| + 2..] + b);
    BracedIsPlaceholder(name, a[|name| + 2..] + b);
  }

  predicate PlainWithin(text: string, s: string) {
    forall i :: 0 <= i < |text| ==> Placeholder((text + s)[i..]).None?
  }

  lemma {:induction false} PlainWithinIsPlain(text: string, s: string)
    requires PlainWithin(text, s)
    ensures Plain(text)
  {
    forall i | 0 <= i < |text|
      ensures Placeholder(text[i..]).None?
    {
      assert (text + s)[i..] == text[i..] + s;
      if Placeholder(text[i..]).Some? {
        PlaceholderExtends(text[i..], s);
      }
    }
  }

  lemma {:induction false} OneMoreIsPlain(text: string, s: string)
    requires s != "" && PlainWithin(text, s) && Placeholder(s).None?
    ensures PlainWithin(text + [s[0]], s[1..])
  {
    assert text + [s[0]] + s[1..] == text + s;
    assert (text + s)[|text|..] == s;
  }

  lemma {:induction false} Prepend(text: string, name: string, more: seq<Piece>)
    requires Plain(text) && IsWord(name) && IsTemplate(more)
    ensures IsTemplate([Text(text), Hole(name)] + more)
    ensures Written([Text(text), Hole(name)] + more) == text + Braced(name) + Written(more)
  {
    var all := [Text(text), Hole(name)] + more;
    assert all[0] == Text(text) && all[1] == Hole(name) && all[2..] == more;
    TwoPieces(all, map[]);
  }

  ghost predicate Reads(pieces: seq<Piece>, whole: string) {
    IsTemplate(pieces) && Written(pieces) == whole
  }

  ghost predicate ReadsBack(s: string, text: string) {
    Reads(Pieces(s, text), text + s)
  }

  lemma {:induction false} ReadsBackHole(s: string, text: string)
    requires Plain(text) && Placeholder(s).Some?
    requires ReadsBack(s[|Placeholder(s).value| + 2..], "")
    ensures ReadsBack(s, text)
  {
    PlaceholderIsBraced(s);
    var name := Placeholder(s).value;
    var rest := s[|name| + 2..];
    Prepend(text, name, Pieces(rest, ""));
    assert "" + rest == rest;
    Regroup(text, Braced(name), rest);
  }

  lemma {:induction false} TextGoesOn(s: string, text: string)
    requires s != "" && Placeholder(s).None?
    ensures Pieces(s, text) == Pieces(s[1..], text + [s[0]])
  {
  }

  lemma {:induction false} ReadsBackText(s: string, text: string)
    requires s != "" && Placeholder(s).None? && ReadsBack(s[1..], text + [s[0]])
    ensures ReadsBack(s, text)
  {
    TextGoesOn(s, text);
    assert text + [s[0]] + s[1..] == text + s;
  }

  lemma {:induction false} ReadsBackEnd(text: string)
    requires Plain(text)
    ensures ReadsBack("", text)
  {
  }

  lemma {:induction false} ReadsOff(s: string, text: string)
    requires PlainWithin(text, s)
    ensures ReadsBack(s, text)
    decreases |s|
  {
    PlainWithinIsPlain(text, s);
    if s == "" {
      ReadsBackEnd(text);
    } else if Placeholder(s).None? {
      OneMoreIsPlain(text, s);
      ReadsOff(s[1..], text + [s[0]]);
      ReadsBackText(s, text);
    } else {
      ReadsOff(s[Taken(s)..], "");
      ReadsBackHole(s, text);
    }
  }

  /** So the scan has a meaning on every string: it is the pieces the string is made of,
      filled in. */
  lemma {:induction false} EveryStringIsATemplate(s: string, vars: Vars)
    ensures IsTemplate(Pieces(s, "")) && Written(Pieces(s, "")) == s
    ensures Interpolate(s, vars) == FilledIn(Pieces(s, ""), vars)
  {
    ReadsOff(s, "");
    assert "" + s == s;
    TemplatesMean(Pieces(s, ""), vars);
  }

  // ---- Translating ----

  /** Letters, digits and underscores of ASCII, at least one. */
  predicate Word(s: string) {
    && s != ""
    && forall i | 0 <= i < |s| ::
         var n := s[i] as int;
         65 <= n <= 90 || 97 <= n <= 122 || 48 <= n <= 57 || n == 95
  }

  lemma {:induction false} WordIsWord(s: string)
    ensures Word(s) <==> IsWord(s)
  {
  }

  /** Nowhere in the text are there two braces around a word. */
  predicate HoleFree(s: string) {
    forall i, j | 0 <= i < j < |s| && s[i] == '{' && s[j] == '}' :: !Word(s[i + 1..j])
  }

  /** What the scan finds at place `i` are two braces around a word. */
  lemma {:induction false} HoleAt(s: string, i: nat)
    requires i < |s|
    ensures Placeholder(s[i..]).Some?
       <==> s[i] == '{' && exists j :: i < j < |s| && s[j] == '}' && Word(s[i + 1..j])
  {
    if Placeholder(s[i..]).Some? {
      FoundIsHole(s, i);
    }
    if j :| s[i] == '{' && i < j < |s| && s[j] == '}' && Word(s[i + 1..j]) {
      HoleIsFound(s, i, j);
    }
  }

  lemma {:induction false} FoundIsHole(s: string, i: nat)
    requires i < |s| && Placeholder(s[i..]).Some?
    ensures s[i] == '{' && exists j :: i < j < |s| && s[j] == '}' && Word(s[i + 1..j])
  {
    var rest := s[i..];
    var name := Placeholder(rest).value;
    PlaceholderIsBraced(rest);
    var j := i + |name| + 1;
    assert rest[|name| + 1] == '}' && s[j] == '}';
    assert s[i + 1..j] == rest[1..|name| + 1] == name;
    WordIsWord(name);
  }

  lemma {:induction false} HoleIsFound(s: string, i: nat, j: nat)
    requires i < j < |s| && s[i] == '{' && s[j] == '}' && Word(s[i + 1..j])
    ensures Placeholder(s[i..]).Some?
  {
    var name := s[i + 1..j];
    WordIsWord(name);
    assert s[i..] == Braced(name) + s[j + 1..];
    BracedIsPlaceholder(name, s[j + 1..]);
  }

  lemma {:induction false} HoleFreeIsPlain(s: string)
    ensures HoleFree(s) <==> Plain(s)
  {
    forall i | 0 <= i < |s|
      ensures Placeholder(s[i..]).None?
         <==> forall j | i < j < |s| && s[i] == '{' && s[j] == '}' :: !Word(s[i + 1..j])
    {
      HoleAt(s, i);
    }
  }

  /** Text without holes and `{word}` holes in turn, starting and ending with text. */
  predicate TextAndHoles(pieces: seq<Piece>) {
    |pieces| % 2 == 1 && forall i | 0 <= i < |pieces| :: Fits(pieces[i], i)
  }

  predicate Fits(piece: Piece, place: nat) {
    if place % 2 == 0 then piece.Text? && HoleFree(piece.text) else piece.Hole? && Word(piece.name)
  }

  lemma {:induction false} FitsMeans(piece: Piece, place: nat)
    ensures Fits(piece, place) == Fits(piece, place + 2)
    ensures Fits(piece, 0) <==> piece.Text? && Plain(piece.text)
    ensures Fits(piece, 1) <==> piece.Hole? && IsWord(piece.name)
  {
    if piece.Text? {
      HoleFreeIsPlain(piece.text);
    } else {
      WordIsWord(piece.name);
    }
  }

  lemma {:induction false} TwoPiecesLess(pieces: seq<Piece>)
    requires |pieces| > 1
    ensures TextAndHoles(pieces) <==> Fits(pieces[0], 0) && Fits(pieces[1], 1) && TextAndHoles(pieces[2..])
  {
    var rest := pieces[2..];
    forall i | 0 <= i < |rest|
      ensures rest[i] == pieces[i + 2] && Fits(rest[i], i) == Fits(pieces[i + 2], i + 2)
    {
      FitsMeans(rest[i], i);
    }
    if Fits(pieces[0], 0) && Fits(pieces[1], 1) && TextAndHoles(rest) {
      forall i | 0 <= i < |pieces|
        ensures Fits(pieces[i], i)
      {
        assert i >= 2 ==> rest[i - 2] == pieces[i];
      }
    }
  }

  lemma {:induction false} TextAndHolesIsTemplate(pieces: seq<Piece>)
    ensures TextAndHoles(pieces) <==> IsTemplate(pieces)
    decreases |pieces|
  {
    if |pieces| > 0 {
      FitsMeans(pieces[0], 0);
    }
    if |pieces| > 1 {
      FitsMeans(pieces[1], 1);
      TwoPiecesLess(pieces);
      TextAndHolesIsTemplate(pieces[2..]);
    }
  }

  function Concatenated(parts: seq<string>): string {
    if parts == [] then "" else parts[0] + Concatenated(parts[1..])
  }

  /** The parts a template is written with: its texts, and its words in braces. */
  predicate WrittenAs(pieces: seq<Piece>, parts: seq<string>) {
    && |parts| == |pieces|
    && forall i | 0 <= i < |pieces| ::
         parts[i] == match pieces[i] case Text(text) => text case Hole(word) => "{" + word + "}"
  }

  /** The same with every word that is a variable's name replaced, braces and all. */
  predicate FilledInAs(pieces: seq<Piece>, vars: Vars, parts: seq<string>) {
    && |parts| == |pieces|
    && forall i | 0 <= i < |pieces| ::
         parts[i] == match pieces[i]
                     case Text(text) => text
                     case Hole(word) => if word in vars then vars[word] else "{" + word + "}"
  }

  lemma {:induction false} WrittenIs(pieces: seq<Piece>, parts: seq<string>)
    requires WrittenAs(pieces, parts)
    ensures Written(pieces) == Concatenated(parts)
    decreases |pieces|
  {
    if pieces != [] {
      WrittenIs(pieces[1..], parts[1..]);
    }
  }

  lemma {:induction false} FilledInIs(pieces: seq<Piece>, vars: Vars, parts: seq<string>)
    requires FilledInAs(pieces, vars, parts)
    ensures FilledIn(pieces, vars) == Concatenated(parts)
    decreases |pieces|
  {
    if pieces != [] {
      FilledInIs(pieces[1..], vars, parts[1..]);
    }
  }

  /** `translate`: the string found under the key, or the key itself. With variables, however
      that string is made of text and `{word}` holes, each hole that names a variable becomes
      its value, unread, and the rest stays. */
  lemma {:induction false} TranslateFillsIn(
    dictionary: map<string, string>, key: string, vars: Vars,
    pieces: seq<Piece>, before: seq<string>, after: seq<string>
  )
    requires TextAndHoles(pieces) && WrittenAs(pieces, before) && FilledInAs(pieces, vars, after)
    requires Concatenated(before) == if key in dictionary then dictionary[key] else key
    ensures Translate(dictionary, key, Some(vars)) == Concatenated(after)
    ensures Translate(dictionary, key, None) == Concatenated(before)
  {
    TextAndHolesIsTemplate(pieces);
    WrittenIs(pieces, before);
    FilledInIs(pieces, vars, after);
    TemplatesMean(pieces, vars);
  }

  /** Every string is made of text and holes in that way. */
  lemma {:induction false} EveryTemplateHasPieces(s: string) returns (pieces: seq<Piece>, parts: seq<string>)
    ensures TextAndHoles(pieces) && WrittenAs(pieces, parts) && Concatenated(parts) == s
  {
    ReadsOff(s, "");
    assert "" + s == s;
    pieces := Pieces(s, "");
    TextAndHolesIsTemplate(pieces);
    parts := seq(|pieces|, i requires 0 <= i < |pieces| =>
      match pieces[i] case Text(text) => text case Hole(word) => "{" + word + "}");
    WrittenIs(pieces, parts);
  }

  lemma {:induction false} FilledAsWritten(pieces: seq<Piece>, vars: Vars)
    requires forall i :: 0 <= i < |pieces| && pieces[i].Hole? ==> pieces[i].name !in vars
    ensures FilledIn(pieces, vars) == Written(pieces)
    decreases |pieces|
  {
    if pieces != [] {
      FilledAsWritten(pieces[1..], vars);
    }
  }

  /** Nothing changes when no placeholder names a variable, and a missing key shows itself. */
  lemma {:induction false} UnnamedStays(dictionary: map<string, string>, key: string, vars: Vars)
    requires
      var template := if key in dictionary then dictionary[key] else key;
      forall i :: 0 <= i < |Pieces(template, "")| && Pieces(template, "")[i].Hole?
        ==> Pieces(template, "")[i].name !in vars
    ensures Translate(dictionary, key, Some(vars)) == Translate(dictionary, key, None)
  {
    var template := if key in dictionary then dictionary[key] else key;
    EveryStringIsATemplate(template, vars);
    FilledAsWritten(Pieces(template, ""), vars);
  }
}