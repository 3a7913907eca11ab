/** Session identifiers: trimming, the system shape, and the stable ids of service sessions. */
module SessionIds {
  import opened Basics
  import opened Texts

  /** `looks_like_system_session_id` of an identifier that is already trimmed. */
  predicate System(n: Name) {
    "sess-" <= n.text
  }

  predicate LooksSystem(raw: Option<string>) {
    raw.Some? && System(Trimmed(raw.value))
  }

  /** What looks like a system session: a text that, trimmed, starts with sess and a hyphen. */
  lemma LooksSystemIff(raw: Option<string>)
    ensures LooksSystem(raw) <==> raw.Some? && |Strip(raw.value)| >= 5 && Strip(raw.value)[..5] == "sess" + "-"
  {}

  // ---------------------------------------------------------------------------
  // Outside ids and service ids
  // ---------------------------------------------------------------------------

  predicate Hex(token: string) {
    forall c | c in token :: '0' <= c <= '9' || 'a' <= c <= 'f'
  }

  /** The random part of a minted id. */
  type Token = t: string | t != "" && Hex(t) witness "0"

  /** `new_session_id`, given the random part. */
  function OutsideId(token: Token): Name {
    Name("sess-" + token)
  }

  predicate Alnum(c: char) {
    'a' <= c <= 'z' || '0' <= c <= '9'
  }

  function Lower(s: string): (r: string)
    ensures |r| == |s|
    ensures forall k | 0 <= k < |s| ::
              r[k] == if 'A' <= s[k] <= 'Z' then (s[k] as int + 32) as char else s[k]
  {
    if s == "" then ""
    else (if 'A' <= s[0] <= 'Z' then [(s[0] as int + 32) as char] else [s[0]]) + Lower(s[1..])
  }

  /** Every run of other characters becomes one hyphen. */
  function Collapsed(s: string): string {
    if s == "" then ""
    else
      var before, c := Collapsed(s[..|s| - 1]), s[|s| - 1];
      if Alnum(c) then before + [c] else if EndsInHyphen(before) then before else before + "-"
  }

  predicate EndsInHyphen(s: string) {
    s != "" && s[|s| - 1] == '-'
  }

  function DropHyphensRight(s: string): (r: string)
    ensures r <= s && !EndsInHyphen(r)
  {
    if EndsInHyphen(s) then DropHyphensRight(s[..|s| - 1]) else s
  }

  function DropHyphensLeft(s: string): string {
    if s != "" && s[0] == '-' then DropHyphensLeft(s[1..]) else s
  }

  const SLUG_LIMIT := 80
  const SERVICE := "sess-svc-"
  const HOST := Name("sess-svc-host")

  function Capped(slug: string): string {
    if |slug| > SLUG_LIMIT then DropHyphensRight(slug[..SLUG_LIMIT]) else slug
  }

  function Slug(raw: string): string {
    DropHyphensRight(DropHyphensLeft(Collapsed(raw)))
  }

  /** The stable session id of a service origin; None where the call raises. */
  function ServiceId(origin: string): Option<Name> {
    var slug := Slug(Lower(Strip(origin)));
    if slug == "" then None else Some(Name(SERVICE + Capped(slug)))
  }

  method ServiceSessionId(origin: string) returns (id: Option<Name>)
    ensures id == ServiceId(origin)
  {
    var raw := Lower(Strip(origin));
    if raw == "" {
      return None;
    }
    var parts := Collapse(raw);
    var slug := DropHyphensRight(DropHyphensLeft(parts));
    if slug == "" {
      return None;
    }
    slug := Capped(slug);
    if slug == "host" {
      assert HOST.text == SERVICE + slug;
      return Some(HOST);
    }
    return Some(Name(SERVICE + slug));
  }

  method Collapse(raw: string) returns (parts: string)
    ensures parts == Collapsed(raw)
  {
    var prevHyphen := false;
    parts := "";
    for k := 0 to |raw|
      invariant parts == Collapsed(raw[..k]) && prevHyphen == EndsInHyphen(parts)
    {
      var c := raw[k];
      assert raw[..k + 1][..k] == raw[..k] && raw[..k + 1][k] == c;
      if Alnum(c) {
        parts, prevHyphen := parts + [c], false;
      } else if !prevHyphen {
        parts, prevHyphen := parts + "-", true;
      }
    }
    assert raw[..|raw|] == raw;
  }

  /** Lower-case letters and digits, with single hyphens between them only. */
  predicate Neat(s: string) {
    && (forall k | 0 <= k < |s| :: Alnum(s[k]) || s[k] == '-')
    && (forall k | 0 < k < |s| :: s[k - 1] == '-' ==> s[k] != '-')
  }

  function Letters(s: string): string {
    if s == "" then ""
    else Letters(s[..|s| - 1]) + if Alnum(s[|s| - 1]) then [s[|s| - 1]] else ""
  }

  lemma {:induction false} CollapsedNeat(s: string)
    ensures Neat(Collapsed(s)) && Letters(Collapsed(s)) == Letters(s)
  {
    if s != "" {
      var before, c := Collapsed(s[..|s| - 1]), s[|s| - 1];
      CollapsedNeat(s[..|s| - 1]);
      assert (before + [c])[..|before|] == before && (before + "-")[..|before|] == before;
    }
  }

  lemma {:induction false} DropRightNeat(s: string)
    requires Neat(s)
    ensures Neat(DropHyphensRight(s)) && Letters(DropHyphensRight(s)) == Letters(s)
  {
    if EndsInHyphen(s) {
      DropRightNeat(s[..|s| - 1]);
    }
  }

  lemma {:induction false} LettersConcat(a: string, b: string)
    ensures Letters(a + b) == Letters(a) + Letters(b)
    decreases |b|
  {
    if b == "" {
      assert a + b == a;
    } else {
      LettersConcat(a, b[..|b| - 1]);
      assert (a + b)[..|a + b| - 1] == a + b[..|b| - 1];
    }
  }

  lemma {:induction false} DropLeftNeat(s: string)
    requires Neat(s)
    ensures var r := DropHyphensLeft(s); Neat(r) && Letters(r) == Letters(s) && (r == "" || r[0] != '-')
  {
    if s != "" && s[0] == '-' {
      DropLeftNeat(s[1..]);
      assert s == [s[0]] + s[1..];
      LettersConcat([s[0]], s[1..]);
    }
  }

  lemma {:induction false} LettersOfPrefix(s: string, k: nat)
    requires k <= |s|
    ensures Letters(s[..k]) <= Letters(s)
  {
    assert s == s[..k] + s[k..];
    LettersConcat(s[..k], s[k..]);
  }

  lemma {:induction false} HasLetter(s: string)
    requires s != "" && Alnum(s[0])
    ensures Letters(s) != ""
  {
    if |s| > 1 {
      HasLetter(s[..|s| - 1]);
    }
  }

  /** No hyphen at either end. */
  predicate Flush(s: string) {
    s != "" && Alnum(s[0]) && Alnum(s[|s| - 1])
  }

  lemma SlugShape(raw: string)
    ensures var r := Slug(raw); Neat(r) && Letters(r) == Letters(raw) && (if Letters(raw) == "" then r == "" else Flush(r))
  {
    CollapsedNeat(raw);
    DropLeftNeat(Collapsed(raw));
    var left := DropHyphensLeft(Collapsed(raw));
    DropRightNeat(left);
    if Slug(raw) != "" {
      HasLetter(Slug(raw));
    }
  }

  lemma CappedShape(slug: string)
    requires Neat(slug) && Flush(slug)
    ensures var r := Capped(slug);
            && Neat(r) && Flush(r) && |r| <= SLUG_LIMIT && Letters(r) <= Letters(slug)
            && (|r| < SLUG_LIMIT - 1 ==> r == slug)
  {
    if |slug| > SLUG_LIMIT {
      var cut := slug[..SLUG_LIMIT];
      CutOnce(cut);
      DropRightNeat(cut);
      LettersOfPrefix(slug, SLUG_LIMIT);
    }
  }

  lemma FlushKept(prefix: string, s: string)
    requires prefix != "" && !Blank(prefix[0]) && Flush(s)
    ensures Strip(prefix + s) == prefix + s && (prefix + s)[|prefix|..] == s
  {
    assert (prefix + s)[0] == prefix[0] && (prefix + s)[|prefix + s| - 1] == s[|s| - 1];
  }

  /** A service id is system shaped, short, and a clean spelling of the letters of its origin. */
  lemma ServiceIdShape(origin: string)
    ensures var letters := Letters(Lower(Strip(origin)));
            match ServiceId(origin)
            case None => letters == ""
            case Some(id) =>
              && letters != "" && System(id) && SERVICE <= id.text && Tidy(id)
              && var slug := id.text[|SERVICE|..];
                 && Neat(slug) && Flush(slug) && |slug| <= SLUG_LIMIT
                 && Letters(slug) <= letters && (|slug| < SLUG_LIMIT - 1 ==> Letters(slug) == letters)
  {
    var slug := Slug(Lower(Strip(origin)));
    SlugShape(Lower(Strip(origin)));
    if slug != "" {
      CappedShape(slug);
      FlushKept(SERVICE, Capped(slug));
    }
  }

  /** A neat text loses at most one hyphen at its end. */
  lemma CutOnce(s: string)
    requires Neat(s) && |s| > 1
    ensures |DropHyphensRight(s)| >= |s| - 1
  {
    if EndsInHyphen(s) {
      var t := s[..|s| - 1];
      assert t[|t| - 1] == s[|s| - 2];
      assert !EndsInHyphen(t);
    }
  }

  /** A minted id of an outside session is system shaped and never the id of a service session. */
  lemma OutsideIsNotService(token: Token)
    ensures var id := OutsideId(token); System(id) && Tidy(id) && !(SERVICE <= id.text)
  {
    var id := "sess-" + token;
    assert SERVICE[5] == 's';
    assert token[0] in token && id[5] == token[0];
    assert token[|token| - 1] in token;
    assert id[0] == 's' && id[|id| - 1] == token[|token| - 1];
  }

  /** The words of a text: its longest runs of lower-case letters and digits, in order. */
  function Words(s: string): seq<string> {
    if s == "" then []
    else
      var before, c := Words(s[..|s| - 1]), s[|s| - 1];
      if !Alnum(c) then before
      else if EndsInLetter(s[..|s| - 1]) && before != [] then before[..|before| - 1] + [before[|before| - 1] + [c]]
      else before + [[c]]
  }

  predicate EndsInLetter(s: string) {
    s != "" && Alnum(s[|s| - 1])
  }

  function Hyphenated(words: seq<string>): string {
    if words == [] then "" else if |words| == 1 then words[0] else Hyphenated(words[..|words| - 1]) + "-" + words[|words| - 1]
  }

  lemma {:induction false} CollapsedWords(s: string)
    ensures Words(Collapsed(s)) == Words(s) && (EndsInLetter(Collapsed(s)) <==> EndsInLetter(s))
  {
    if s != "" {
      var before, c := Collapsed(s[..|s| - 1]), s[|s| - 1];
      CollapsedWords(s[..|s| - 1]);
      assert (before + [c])[..|before|] == before && (before + "-")[..|before|] == before;
    }
  }

  lemma {:induction false} DropRightWords(s: string)
    ensures Words(DropHyphensRight(s)) == Words(s)
  {
    if EndsInHyphen(s) {
      DropRightWords(s[..|s| - 1]);
    }
  }

  lemma {:induction false} HyphenFirst(s: string)
    ensures Words("-" + s) == Words(s) && (EndsInLetter("-" + s) <==> EndsInLetter(s))
  {
    var t := "-" + s;
    if s == "" {
      assert t[..0] == "";
    } else {
      HyphenFirst(s[..|s| - 1]);
      assert t[..|t| - 1] == "-" + s[..|s| - 1];
    }
  }

  lemma {:induction false} DropLeftWords(s: string)
    ensures Words(DropHyphensLeft(s)) == Words(s)
  {
    if s != "" && s[0] == '-' {
      DropLeftWords(s[1..]);
      HyphenFirst(s[1..]);
      assert s == "-" + s[1..];
    }
  }

  lemma {:induction false} NeatIsHyphenated(s: string)
    requires Neat(s) && (s == "" || Alnum(s[0]))
    ensures s == Hyphenated(Words(s)) + if EndsInHyphen(s) then "-" else ""
    ensures s != "" ==> Words(s) != []
  {
    if s != "" {
      var init, c := s[..|s| - 1], s[|s| - 1];
      NeatIsHyphenated(init);
      assert s == init + [c];
      if init != "" {
        assert init[|init| - 1] == s[|s| - 2];
        OneMoreCharacter(init, c, Words(init));
      }
    }
  }

  lemma OneMoreCharacter(init: string, c: char, before: seq<string>)
    requires init != "" && before != [] && before == Words(init)
    requires init == Hyphenated(before) + if EndsInHyphen(init) then "-" else ""
    requires Alnum(init[|init| - 1]) || (init[|init| - 1] == '-' && c != '-')
    requires Alnum(c) || c == '-'
    ensures var s := init + [c]; Words(s) != [] && s == Hyphenated(Words(s)) + if EndsInHyphen(s) then "-" else ""
  {
    var s := init + [c];
    assert s[..|s| - 1] == init && s[|s| - 1] == c;
    if Alnum(c) && EndsInLetter(init) {
      LongerLastWord(before, c);
    } else if Alnum(c) {
      assert (before + [[c]])[..|before|] == before;
    }
  }

  lemma LongerLastWord(words: seq<string>, c: char)
    requires words != []
    ensures var last := |words| - 1;
            Hyphenated(words[..last] + [words[last] + [c]]) == Hyphenated(words) + [c]
  {
    var last := |words| - 1;
    var word := words[last] + [c];
    var longer := words[..last] + [word];
    assert longer[..last] == words[..last] && longer[last] == word;
    if last > 0 {
      var before := Hyphenated(words[..last]) + "-";
      assert Hyphenated(longer) == before + word && Hyphenated(words) == before + words[last];
      OneMoreAtTheEnd(before, words[last], c);
    } else {
      assert Hyphenated(longer) == word && Hyphenated(words) == words[last];
    }
  }

  lemma OneMoreAtTheEnd(a: string, b: string, c: char)
    ensures a + (b + [c]) == a + b + [c]
  {}

  /** The slug of a text is its words with single hyphens between them. */
  lemma SlugIsWords(raw: string)
    ensures Slug(raw) == Hyphenated(Words(raw))
  {
    SlugShape(raw);
    CollapsedWords(raw);
    DropLeftWords(Collapsed(raw));
    DropRightWords(DropHyphensLeft(Collapsed(raw)));
    NeatIsHyphenated(Slug(raw));
  }

  /** The stable id of an origin: the words of its trimmed lower-case form, hyphenated and cut after 80 characters, or
      after 79 if the last one would be a hyphen. An origin without words has none. */
  lemma ServiceIdIs(origin: string)
    ensures var words := Words(Lower(Strip(origin)));
            var slug := Hyphenated(words);
            ServiceId(origin) ==
            if slug == "" then None
            else if |slug| <= 80 then Some(Name("sess-svc-" + slug))
            else if slug[79] != '-' then Some(Name("sess-svc-" + slug[..80]))
            else Some(Name("sess-svc-" + slug[..79]))
  {
    var raw := Lower(Strip(origin));
    SlugIsWords(raw);
    SlugShape(raw);
    var slug := Slug(raw);
    if |slug| > 80 {
      CutAt(slug);
    }
  }

  lemma CutAt(slug: string)
    requires Neat(slug) && |slug| > 80
    ensures Capped(slug) == if slug[79] != '-' then slug[..80] else slug[..79]
  {
    var cut := slug[..80];
    assert |cut| == 80 && cut[79] == slug[79] && cut[..79] == slug[..79];
    if slug[79] == '-' {
      var shorter := cut[..79];
      assert shorter[78] == slug[78] && slug[79 - 1] == slug[78];
      assert !EndsInHyphen(shorter);
      assert DropHyphensRight(cut) == DropHyphensRight(shorter) == shorter;
    }
  }
}
