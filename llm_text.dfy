/** The text helpers around the language-model call (llm_client.py):
    cleaning up the emotion data the model returns, rendering it back as
    a one-line summary, reading a summary written inside a reply, and
    replacing typographic punctuation in JSON text. */
module LlmText {
  import opened Wrappers
  import opened Dicts
  import opened Values
  import opened Text
  import Ranking
  import Records
  import Params

  /** `ALLOWED_EMOTIONS`: the 32 labels, in the same order as the label
      list of the parameter module. */
  const AllowedEmotions: seq<string> := Params.JaNames

  // ---------------------------------------------------------------------
  // normalize_json_text

  /** The characters `normalize_json_text` replaces. */
  predicate Typographic(c: char) {
    c == '“' || c == '”' || c == '‘' || c == '’' || c == '：' || c == '，' || c == '「' || c == '」'
  }

  /** The ASCII character each of them becomes; every other character is
      kept. */
  function AsciiOf(c: char): char {
    if c == '“' || c == '”' || c == '「' || c == '」' then '"'
    else if c == '‘' || c == '’' then '\''
    else if c == '：' then ':'
    else if c == '，' then ','
    else c
  }

  /** The first four replacements of `normalize_json_text`: curly quotes. */
  function ReplaceQuotes(text: string): string {
    var t := ReplaceChar(ReplaceChar(text, '“', "\""), '”', "\"");
    ReplaceChar(ReplaceChar(t, '‘', "'"), '’', "'")
  }

  /** The last four: the full-width colon and comma, and corner brackets. */
  function ReplacePunctuation(text: string): string {
    var t := ReplaceChar(ReplaceChar(text, '：', ":"), '，', ",");
    ReplaceChar(ReplaceChar(t, '「', "\""), '」', "\"")
  }

  /** `normalize_json_text(text)`: eight `str.replace` calls in a row. */
  function NormalizeJsonText(text: string): string {
    ReplacePunctuation(ReplaceQuotes(text))
  }

  /** Replacing a character by one character keeps the length and acts on
      each position alone. */
  lemma {:induction false} ReplaceOne(s: string, c: char, d: char)
    ensures |ReplaceChar(s, c, [d])| == |s|
    ensures forall i | 0 <= i < |s| :: ReplaceChar(s, c, [d])[i] == if s[i] == c then d else s[i]
  {
    if |s| > 0 {
      ReplaceOne(s[1..], c, d);
      var r := ReplaceChar(s, c, [d]);
      assert r == [if s[0] == c then d else s[0]] + ReplaceChar(s[1..], c, [d]);
      forall i | 0 <= i < |s| ensures r[i] == if s[i] == c then d else s[i] {
        if i > 0 {
          assert s[i] == s[1..][i - 1];
        }
      }
    }
  }

  /** Two replacements by the same character act on each position alone. */
  lemma ReplacePair(s: string, c1: char, c2: char, d: char)
    ensures |ReplaceChar(ReplaceChar(s, c1, [d]), c2, [d])| == |s|
    ensures forall i | 0 <= i < |s| ::
      ReplaceChar(ReplaceChar(s, c1, [d]), c2, [d])[i] == if s[i] == c1 || s[i] == c2 then d else s[i]
  {
    ReplaceOne(s, c1, d);
    ReplaceOne(ReplaceChar(s, c1, [d]), c2, d);
  }

  function QuoteOf(c: char): char {
    if c == '“' || c == '”' then '"' else if c == '‘' || c == '’' then '\'' else c
  }

  function PunctuationOf(c: char): char {
    if c == '：' then ':' else if c == '，' then ',' else if c == '「' || c == '」' then '"' else c
  }

  lemma ReplaceQuotesSpec(text: string)
    ensures |ReplaceQuotes(text)| == |text|
    ensures forall i | 0 <= i < |text| :: ReplaceQuotes(text)[i] == QuoteOf(text[i])
  {
    var t := ReplaceChar(ReplaceChar(text, '“', ['"']), '”', ['"']);
    ReplacePair(text, '“', '”', '"');
    ReplacePair(t, '‘', '’', '\'');
  }

  lemma ReplacePunctuationSpec(text: string)
    ensures |ReplacePunctuation(text)| == |text|
    ensures forall i | 0 <= i < |text| :: ReplacePunctuation(text)[i] == PunctuationOf(text[i])
  {
    var t := ReplaceChar(ReplaceChar(text, '：', [':']), '，', [',']);
    ReplaceOne(text, '：', ':');
    ReplaceOne(ReplaceChar(text, '：', [':']), '，', ',');
    ReplacePair(t, '「', '」', '"');
  }

  /** Each character is mapped on its own to its ASCII counterpart, so the
      length is kept and none of the eight characters remains. */
  lemma NormalizeJsonTextSpec(text: string)
    ensures |NormalizeJsonText(text)| == |text|
    ensures forall i | 0 <= i < |text| :: NormalizeJsonText(text)[i] == AsciiOf(text[i])
    ensures forall i | 0 <= i < |text| :: !Typographic(NormalizeJsonText(text)[i])
  {
    ReplaceQuotesSpec(text);
    var q := ReplaceQuotes(text);
    ReplacePunctuationSpec(q);
    var r := ReplacePunctuation(q);
    assert r == NormalizeJsonText(text);
    forall i | 0 <= i < |text| ensures r[i] == AsciiOf(text[i]) && !Typographic(r[i]) {
      CharsMapped(text[i]);
    }
  }

  lemma CharsMapped(c: char)
    ensures AsciiOf(c) == PunctuationOf(QuoteOf(c)) && !Typographic(AsciiOf(c))
  {
  }

  /** A second pass changes nothing. */
  lemma NormalizeJsonTextIdempotent(text: string)
    ensures NormalizeJsonText(NormalizeJsonText(text)) == NormalizeJsonText(text)
  {
    NormalizeJsonTextSpec(text);
    var r := NormalizeJsonText(text);
    assert '“' !in r && '”' !in r && '‘' !in r && '’' !in r;
    assert '：' !in r && '，' !in r && '「' !in r && '」' !in r;
  }

  // ---------------------------------------------------------------------
  // The pattern （感情\s+([^\n)]+)） of parse_emotion_summary_from_text

  /** The literal text the pattern starts with. */
  const Opening: string := "（感情"

  /** A character the group `[^\n)]` accepts: anything but a newline and
      an ASCII `)`. */
  predicate GroupChar(c: char) {
    c != '\n' && c != ')'
  }

  /** `text[g..e]` can be the group, closed by the `）` at `e`. */
  predicate GroupOk(text: string, g: nat, e: nat) {
    && g < e < |text|
    && text[e] == '）'
    && (forall k | g <= k < e :: GroupChar(text[k]))
  }

  /** The pattern matches at `i`, with group `text[g..e]`. */
  predicate MatchAt(text: string, i: nat, g: nat, e: nat) {
    && GroupOk(text, g, e)
    && i + 3 < g
    && text[i..i + 3] == Opening
    && (forall k | i + 3 <= k < g :: IsSpace(text[k]))
  }

  /** The match at `i` a backtracking matcher reports: `\s+` is greedy and
      tried first, then the greedy group, so of all matches at `i` it has
      the latest group start and, for that start, the latest end. */
  ghost predicate GreedyAt(text: string, i: nat, g: nat, e: nat) {
    && MatchAt(text, i, g, e)
    && (forall g': nat, e': nat | MatchAt(text, i, g', e') :: g' < g || (g' == g && e' <= e))
  }

  ghost predicate NoMatchAt(text: string, i: nat) {
    forall g: nat, e: nat :: !MatchAt(text, i, g, e)
  }

  /** The end of the run of whitespace starting at `a`. */
  function SpaceEnd(text: string, a: nat): (r: nat)
    requires a <= |text|
    ensures a <= r <= |text|
    ensures forall k | a <= k < r :: IsSpace(text[k])
    ensures r < |text| ==> !IsSpace(text[r])
    decreases |text| - a
  {
    if a == |text| || !IsSpace(text[a]) then a else SpaceEnd(text, a + 1)
  }

  /** The end of the run of group characters starting at `g`. */
  function RunEnd(text: string, g: nat): (r: nat)
    requires g <= |text|
    ensures g <= r <= |text|
    ensures forall k | g <= k < r :: GroupChar(text[k])
    ensures r < |text| ==> !GroupChar(text[r])
    decreases |text| - g
  {
    if g == |text| || !GroupChar(text[g]) then g else RunEnd(text, g + 1)
  }

  /** The last `）` in `text[lo..hi]`. */
  function LastFullClose(text: string, lo: nat, hi: nat): (r: Option<nat>)
    requires lo <= hi <= |text|
    ensures r.Some? ==> lo <= r.value < hi && text[r.value] == '）'
    ensures r.Some? ==> forall k | r.value < k < hi :: text[k] != '）'
    ensures r.None? ==> forall k | lo <= k < hi :: text[k] != '）'
    decreases hi - lo
  {
    if hi == lo then None
    else if text[hi - 1] == '）' then Some(hi - 1)
    else LastFullClose(text, lo, hi - 1)
  }

  /** The end of the longest group starting at `g`, if there is one. */
  function GroupEnd(text: string, g: nat): Option<nat>
    requires g <= |text|
  {
    var r := RunEnd(text, g);
    if r == g then None else LastFullClose(text, g + 1, r)
  }

  lemma GroupEndSpec(text: string, g: nat)
    requires g <= |text|
    ensures GroupEnd(text, g).Some? ==> GroupOk(text, g, GroupEnd(text, g).value)
    ensures forall e: nat | GroupOk(text, g, e) :: GroupEnd(text, g).Some? && e <= GroupEnd(text, g).value
  {
    var r := RunEnd(text, g);
    forall e: nat | GroupOk(text, g, e) ensures GroupEnd(text, g).Some? && e <= GroupEnd(text, g).value {
      assert e < r;
    }
  }

  /** Try the group starts `a + w`, `a + w - 1`, …, `a + 1` in turn. */
  function TryFrom(text: string, a: nat, w: nat): Option<(nat, nat)>
    requires a + w <= |text|
    decreases w
  {
    if w == 0 then None
    else
      match GroupEnd(text, a + w)
      case Some(e) => Some((a + w, e))
      case None => TryFrom(text, a, w - 1)
  }

  lemma {:induction false} TryFromSpec(text: string, a: nat, w: nat)
    requires a + w <= |text|
    ensures TryFrom(text, a, w).Some? ==>
      && a < TryFrom(text, a, w).value.0 <= a + w
      && GroupEnd(text, TryFrom(text, a, w).value.0) == Some(TryFrom(text, a, w).value.1)
      && forall g | TryFrom(text, a, w).value.0 < g <= a + w :: GroupEnd(text, g).None?
    ensures TryFrom(text, a, w).None? ==> forall g | a < g <= a + w :: GroupEnd(text, g).None?
    decreases w
  {
    if w > 0 && GroupEnd(text, a + w).None? {
      TryFromSpec(text, a, w - 1);
    }
  }

  /** The match at `i`, as its group bounds. */
  function MatchFrom(text: string, i: nat): Option<(nat, nat)>
    requires i <= |text|
  {
    if i + 3 <= |text| && text[i..i + 3] == Opening then
      TryFrom(text, i + 3, SpaceEnd(text, i + 3) - (i + 3))
    else None
  }

  lemma MatchFromSpec(text: string, i: nat)
    requires i <= |text|
    ensures MatchFrom(text, i).Some? ==> GreedyAt(text, i, MatchFrom(text, i).value.0, MatchFrom(text, i).value.1)
    ensures MatchFrom(text, i).None? ==> NoMatchAt(text, i)
  {
    if i + 3 <= |text| && text[i..i + 3] == Opening {
      var a := i + 3;
      var s := SpaceEnd(text, a);
      TryFromSpec(text, a, s - a);
      forall g: nat, e: nat | MatchAt(text, i, g, e)
        ensures MatchFrom(text, i).Some?
        ensures MatchFrom(text, i).value.0 > g || (MatchFrom(text, i).value.0 == g && e <= MatchFrom(text, i).value.1)
      {
        assert g <= s;
        GroupEndSpec(text, g);
      }
      if MatchFrom(text, i).Some? {
        var g := MatchFrom(text, i).value.0;
        GroupEndSpec(text, g);
        assert MatchAt(text, i, g, MatchFrom(text, i).value.1);
      }
    } else {
      assert NoMatchAt(text, i);
    }
  }

  /** `re.search` from position `i` on: the first position with a match. */
  function SearchFrom(text: string, i: nat): Option<(nat, nat, nat)>
    requires i <= |text|
    decreases |text| - i
  {
    match MatchFrom(text, i)
    case Some(m) => Some((i, m.0, m.1))
    case None => if i == |text| then None else SearchFrom(text, i + 1)
  }

  /** The search finds the leftmost position where the pattern matches,
      and there the match a backtracking matcher prefers; it finds
      nothing only when the pattern matches nowhere. */
  lemma {:induction false} SearchFromSpec(text: string, i: nat)
    requires i <= |text|
    ensures SearchFrom(text, i).Some? ==>
      var (j, g, e) := SearchFrom(text, i).value;
      && i <= j && GreedyAt(text, j, g, e)
      && forall j' | i <= j' < j :: NoMatchAt(text, j')
    ensures SearchFrom(text, i).None? ==> forall j': nat | i <= j' :: NoMatchAt(text, j')
    decreases |text| - i
  {
    MatchFromSpec(text, i);
    if MatchFrom(text, i).None? {
      if i == |text| {
        forall j': nat | i <= j' ensures NoMatchAt(text, j') {
          assert NoMatchAt(text, j');
        }
      } else {
        SearchFromSpec(text, i + 1);
      }
    }
  }

  // ---------------------------------------------------------------------
  // parse_emotion_summary_from_text

  /** `[p.strip() for p in pieces if ":" in p]` */
  function KeepParts(pieces: seq<string>): seq<string> {
    if pieces == [] then []
    else (if ':' in pieces[0] then [Strip(pieces[0])] else []) + KeepParts(pieces[1..])
  }

  /** The parts of a summary: its pieces between `、`, stripped, keeping
      those with a `:`. */
  function Parts(content: string): seq<string> {
    KeepParts(Split(content, '、'))
  }

  /** What one part contributes: `None` where the source skips it (not
      exactly two pieces around `:`, an empty name, a percent that `int()`
      rejects, or a name outside the allowed labels). */
  function PartEntry(part: string, allowed: seq<string>): Option<(string, int)> {
    var pieces := Split(part, ':');
    if |pieces| != 2 then None
    else
      var emotion := Strip(pieces[0]);
      if emotion == "" then None
      else
        match ParseInt(Strip(ReplaceChar(pieces[1], '%', "")))
        case None => None
        case Some(v) => if emotion in allowed then Some((emotion, v)) else None
  }

  /** What each part contributes, in order. */
  function Entries(parts: seq<string>, allowed: seq<string>): (r: seq<Option<(string, int)>>)
    ensures |r| == |parts|
    ensures forall i | 0 <= i < |parts| :: r[i] == PartEntry(parts[i], allowed)
  {
    seq(|parts|, i requires 0 <= i < |parts| => PartEntry(parts[i], allowed))
  }

  /** The result dict after the first `n` entries: `result[emotion] = value`
      for each kept one. */
  function Fill(entries: seq<Option<(string, int)>>, n: nat): Dict<string, int>
    requires n <= |entries|
  {
    if n == 0 then Empty()
    else
      var prev := Fill(entries, n - 1);
      match entries[n - 1]
      case Some(p) => Put(prev, p.0, p.1)
      case None => prev
  }

  /** What `parse_emotion_summary_from_text(text)` returns. */
  function EmotionSummaryOf(text: string, allowed: seq<string>): Dict<string, int> {
    match SearchFrom(text, 0)
    case None => Empty()
    case Some(m) =>
      if m.1 <= m.2 <= |text| then
        var parts := Parts(text[m.1..m.2]);
        Fill(Entries(parts, allowed), |parts|)
      else Empty()
  }

  /** `parse_emotion_summary_from_text(text)` */
  method ParseEmotionSummaryFromText(text: string) returns (result: Dict<string, int>)
    ensures result == EmotionSummaryOf(text, AllowedEmotions)
  {
    var found := SearchFrom(text, 0);
    if found.None? {
      return Empty();
    }
    var (_, g, e) := found.value;
    if !(g <= e <= |text|) {
      return Empty();
    }
    var content := text[g..e];
    var parts := Parts(content);
    ghost var entries := Entries(parts, AllowedEmotions);
    result := Empty();
    for j := 0 to |parts|
      invariant result == Fill(entries, j)
    {
      assert entries[j] == PartEntry(parts[j], AllowedEmotions);
      var pieces := Split(parts[j], ':');
      if |pieces| != 2 {
        continue;
      }
      var emotion := Strip(pieces[0]);
      if emotion == "" {
        continue;
      }
      var percent := ParseInt(Strip(ReplaceChar(pieces[1], '%', "")));
      if percent.None? {
        continue;
      }
      if emotion in AllowedEmotions {
        result := Put(result, emotion, percent.value);
      }
    }
  }

  /** Entry `i`, among the first `n`, is the last one naming `emotion`, and
      `emotion` holds its percent. */
  predicate LastEntry(entries: seq<Option<(string, int)>>, n: nat, out: Dict<string, int>, emotion: string, i: nat)
    requires n <= |entries| && emotion in out.vals
  {
    && i < n
    && entries[i] == Some((emotion, out.vals[emotion]))
    && forall j | i < j < n :: !(entries[j].Some? && entries[j].value.0 == emotion)
  }

  /** The result holds a name exactly when some entry names it. */
  lemma {:induction false} FillKeys(entries: seq<Option<(string, int)>>, n: nat)
    requires n <= |entries|
    ensures Valid(Fill(entries, n))
    ensures forall e :: e in Fill(entries, n).vals <==>
      exists i | 0 <= i < n :: entries[i].Some? && entries[i].value.0 == e
  {
    if n > 0 {
      FillKeys(entries, n - 1);
      match entries[n - 1]
      case Some(p) =>
        PutValid(Fill(entries, n - 1), p.0, p.1);
      case None =>
    }
  }

  /** Each name in the result holds the value of the last entry naming it. */
  lemma {:induction false} FillLast(entries: seq<Option<(string, int)>>, n: nat)
    requires n <= |entries|
    ensures forall e | e in Fill(entries, n).vals :: exists i: nat :: LastEntry(entries, n, Fill(entries, n), e, i)
  {
    if n > 0 {
      var prev := Fill(entries, n - 1);
      var out := Fill(entries, n);
      FillLast(entries, n - 1);
      match entries[n - 1]
      case Some(p) =>
        forall e | e in out.vals ensures exists i: nat :: LastEntry(entries, n, out, e, i) {
          if e == p.0 {
            assert LastEntry(entries, n, out, e, n - 1);
          } else {
            var i: nat :| LastEntry(entries, n - 1, prev, e, i);
            assert LastEntry(entries, n, out, e, i);
          }
        }
      case None =>
        forall e | e in out.vals ensures exists i: nat :: LastEntry(entries, n, out, e, i) {
          var i: nat :| LastEntry(entries, n - 1, prev, e, i);
          assert LastEntry(entries, n, out, e, i);
        }
    }
  }

  /** The result holds a name exactly when some entry names it, and then
      the value of the last such entry (later duplicates overwrite earlier
      ones). */
  lemma FillSpec(entries: seq<Option<(string, int)>>, n: nat)
    requires n <= |entries|
    ensures Valid(Fill(entries, n))
    ensures forall e :: e in Fill(entries, n).vals <==>
      exists i | 0 <= i < n :: entries[i].Some? && entries[i].value.0 == e
    ensures forall e | e in Fill(entries, n).vals :: exists i: nat :: LastEntry(entries, n, Fill(entries, n), e, i)
  {
    FillKeys(entries, n);
    FillLast(entries, n);
  }

  /** A kept entry has an allowed, non-empty, stripped name, and its
      percent is what `int()` reads from the text after the `:`. */
  lemma PartEntrySpec(part: string, allowed: seq<string>)
    requires PartEntry(part, allowed).Some?
    ensures var (emotion, v) := PartEntry(part, allowed).value;
      && emotion in allowed && emotion != "" && Strip(emotion) == emotion
      && Count(part, ':') == 1
      && exists a, b :: part == a + ":" + b && emotion == Strip(a) && ParseInt(Strip(ReplaceChar(b, '%', ""))) == Some(v)
  {
    SplitJoin(part, ':');
    var pieces := Split(part, ':');
    StripIdempotent(pieces[0]);
    assert pieces == [pieces[0]] + pieces[1..];
    assert part == pieces[0] + ":" + pieces[1];
  }

  /** Without a `（感情 …）` segment the result is `{}`; with one, its keys
      are allowed labels, each with the percent of the last part naming
      it. */
  lemma EmotionSummarySpec(text: string, allowed: seq<string>)
    ensures (forall j: nat :: NoMatchAt(text, j)) ==> EmotionSummaryOf(text, allowed) == Empty()
    ensures Valid(EmotionSummaryOf(text, allowed))
    ensures forall e | e in EmotionSummaryOf(text, allowed).vals :: e in allowed
    ensures |EmotionSummaryOf(text, allowed).keys| > 0 ==> exists j: nat, g: nat, e: nat :: GreedyAt(text, j, g, e)
  {
    SearchFromSpec(text, 0);
    match SearchFrom(text, 0)
    case None =>
    case Some(m) =>
      if m.1 <= m.2 <= |text| {
        var parts := Parts(text[m.1..m.2]);
        var entries := Entries(parts, allowed);
        FillSpec(entries, |parts|);
        forall e | e in EmotionSummaryOf(text, allowed).vals ensures e in allowed {
          var i :| 0 <= i < |parts| && entries[i].Some? && entries[i].value.0 == e;
          PartEntrySpec(parts[i], allowed);
        }
      }
      assert !NoMatchAt(text, m.0);
  }

  // ---------------------------------------------------------------------
  // normalize_emotion_data

  /** `EMOTION_MAP.get(k, k)`; the alias table is read from a file, so it
      is a parameter. */
  function StdName(k: string, aliases: Dict<string, string>): string {
    GetOr(aliases, k, k)
  }

  /** The numeric value of a number; 0 for anything else. */
  function RealOf(v: Value): real {
    match NumOf(v)
    case Some(x) => x
    case None => 0.0
  }

  /** `a + b` on numbers: an `int` when both are `int` or `bool`, and a
      `float` otherwise. */
  function NumAdd(a: Value, b: Value): (r: Value)
    ensures IsNumber(r) && RealOf(r) == RealOf(a) + RealOf(b)
    ensures (a.Int? || a.Bool?) && (b.Int? || b.Bool?) ==> r.Int?
  {
    match (a, b)
    case (Int(x), Int(y)) => Int(x + y)
    case (Int(x), Bool(y)) => Int(x + if y then 1 else 0)
    case (Bool(x), Int(y)) => Int((if x then 1 else 0) + y)
    case (Bool(x), Bool(y)) => Int((if x then 1 else 0) + (if y then 1 else 0))
    case _ => Float(RealOf(a) + RealOf(b))
  }

  /** The label key `k` of the composition adds to, if any: its value is a
      number and its standard name is allowed. */
  function Target(comp: Dict<string, Value>, k: string, aliases: Dict<string, string>, allowed: seq<string>): Option<string> {
    if IsNumber(GetOr(comp, k, Null)) && StdName(k, aliases) in allowed then Some(StdName(k, aliases)) else None
  }

  /** `normalized` after the first `n` keys of the composition. */
  function NormalizedUpTo(comp: Dict<string, Value>, n: nat, aliases: Dict<string, string>, allowed: seq<string>): Dict<string, Value>
    requires n <= |comp.keys|
  {
    if n == 0 then Empty()
    else
      var k := comp.keys[n - 1];
      var prev := NormalizedUpTo(comp, n - 1, aliases, allowed);
      match Target(comp, k, aliases, allowed)
      case Some(s) => Put(prev, s, NumAdd(GetOr(prev, s, Int(0)), GetOr(comp, k, Null)))
      case None => prev
  }

  /** The sum of the values of the first `n` keys whose label is `s`. */
  function AliasTotal(comp: Dict<string, Value>, n: nat, aliases: Dict<string, string>, allowed: seq<string>, s: string): real
    requires n <= |comp.keys|
  {
    if n == 0 then 0.0
    else
      var k := comp.keys[n - 1];
      AliasTotal(comp, n - 1, aliases, allowed, s) + (if Target(comp, k, aliases, allowed) == Some(s) then RealOf(GetOr(comp, k, Null)) else 0.0)
  }

  /** Only labels some numeric value reaches appear. */
  lemma {:induction false} NormalizedUpToKeys(comp: Dict<string, Value>, n: nat, aliases: Dict<string, string>, allowed: seq<string>)
    requires n <= |comp.keys|
    ensures Valid(NormalizedUpTo(comp, n, aliases, allowed))
    ensures forall s :: s in NormalizedUpTo(comp, n, aliases, allowed).vals <==>
      exists i | 0 <= i < n :: Target(comp, comp.keys[i], aliases, allowed) == Some(s)
  {
    if n > 0 {
      var k := comp.keys[n - 1];
      var prev := NormalizedUpTo(comp, n - 1, aliases, allowed);
      NormalizedUpToKeys(comp, n - 1, aliases, allowed);
      match Target(comp, k, aliases, allowed)
      case Some(t) =>
        PutValid(prev, t, NumAdd(GetOr(prev, t, Int(0)), GetOr(comp, k, Null)));
      case None =>
    }
  }

  /** Each label that appears is allowed and holds the sum of all the
      values whose names map to it. */
  lemma {:induction false} NormalizedUpToSpec(comp: Dict<string, Value>, n: nat, aliases: Dict<string, string>, allowed: seq<string>)
    requires n <= |comp.keys|
    ensures forall s | s in NormalizedUpTo(comp, n, aliases, allowed).vals ::
      && s in allowed
      && IsNumber(NormalizedUpTo(comp, n, aliases, allowed).vals[s])
      && RealOf(NormalizedUpTo(comp, n, aliases, allowed).vals[s]) == AliasTotal(comp, n, aliases, allowed, s)
  {
    if n > 0 {
      var k := comp.keys[n - 1];
      var prev := NormalizedUpTo(comp, n - 1, aliases, allowed);
      NormalizedUpToSpec(comp, n - 1, aliases, allowed);
      match Target(comp, k, aliases, allowed)
      case Some(t) =>
        if t !in prev.vals {
          NormalizedUpToKeys(comp, n - 1, aliases, allowed);
          AliasTotalZero(comp, n - 1, aliases, allowed, t);
        }
      case None =>
    }
  }

  /** A label no key has reached yet has total 0. */
  lemma {:induction false} AliasTotalZero(comp: Dict<string, Value>, n: nat, aliases: Dict<string, string>, allowed: seq<string>, s: string)
    requires n <= |comp.keys|
    requires forall i | 0 <= i < n :: Target(comp, comp.keys[i], aliases, allowed) != Some(s)
    ensures AliasTotal(comp, n, aliases, allowed, s) == 0.0
  {
    if n > 0 {
      AliasTotalZero(comp, n - 1, aliases, allowed, s);
    }
  }

  /** `emotion_data.get("構成比", {})` when it is a dict; `None` when it is
      something else, whose `.items()` raises. */
  function CompositionOf(fields: Dict<string, Value>): Option<Dict<string, Value>> {
    match GetOr(fields, "構成比", Obj(Empty()))
    case Obj(d) => Some(d)
    case _ => None
  }

  /** The values of a dict of numbers, in key order. */
  function NumValues(d: Dict<string, Value>): seq<real> {
    seq(|d.keys|, i requires 0 <= i < |d.keys| => RealOf(GetOr(d, d.keys[i], Null)))
  }

  /** `max(normalized, key=normalized.get)` */
  function MainOf(normalized: Dict<string, Value>): string
    requires |normalized.keys| > 0
  {
    normalized.keys[Ranking.FirstMaxIndex(NumValues(normalized))]
  }

  /** The fields of `emotion_data` after `normalize_emotion_data`, or
      `None` where it raises. */
  function Normalized(fields: Dict<string, Value>, aliases: Dict<string, string>, allowed: seq<string>): Option<Dict<string, Value>> {
    match CompositionOf(fields)
    case None => None
    case Some(comp) =>
      var normalized := NormalizedUpTo(comp, |comp.keys|, aliases, allowed);
      if |normalized.keys| > 0 then
        Some(Put(Put(fields, "構成比", Obj(normalized)), "主感情", Text(MainOf(normalized))))
      else
        var cleared := Put(fields, "構成比", Obj(Empty()));
        var current := GetOr(cleared, "主感情", Text(Params.DefaultMainEmotion));
        Some(Put(cleared, "主感情", if Truthy(current) then current else Text(Params.DefaultMainEmotion)))
  }

  /** The loop of `normalize_emotion_data` that builds `normalized`. */
  method SumAliases(comp: Dict<string, Value>, aliases: Dict<string, string>) returns (normalized: Dict<string, Value>)
    ensures normalized == NormalizedUpTo(comp, |comp.keys|, aliases, AllowedEmotions)
  {
    normalized := Empty();
    for i := 0 to |comp.keys|
      invariant normalized == NormalizedUpTo(comp, i, aliases, AllowedEmotions)
    {
      var k := comp.keys[i];
      var v := GetOr(comp, k, Null);
      if IsNumber(v) {
        var std := GetOr(aliases, k, k);
        if std in AllowedEmotions {
          normalized := Put(normalized, std, NumAdd(GetOr(normalized, std, Int(0)), v));
        }
      }
    }
  }

  /** `normalize_emotion_data(emotion_data)`: updates the caller's dict in
      place; `raised` is the `AttributeError` of a composition that is not
      a dict. */
  method NormalizeEmotionData(data: Records.EmotionData, aliases: Dict<string, string>) returns (raised: bool)
    modifies data
    ensures raised <==> Normalized(old(data.fields), aliases, AllowedEmotions).None?
    ensures raised ==> data.fields == old(data.fields)
    ensures !raised ==> Normalized(old(data.fields), aliases, AllowedEmotions) == Some(data.fields)
  {
    var composition := CompositionOf(data.fields);
    if composition.None? {
      return true;
    }
    var comp := composition.value;
    var normalized := SumAliases(comp, aliases);
    if |normalized.keys| > 0 {
      var main := MainOf(normalized);
      data.fields := Put(Put(data.fields, "構成比", Obj(normalized)), "主感情", Text(main));
    } else {
      data.fields := Put(data.fields, "構成比", Obj(Empty()));
      var current := GetOr(data.fields, "主感情", Text(Params.DefaultMainEmotion));
      data.fields := Put(data.fields, "主感情", if Truthy(current) then current else Text(Params.DefaultMainEmotion));
    }
    raised := false;
  }

  /** The call raises exactly when the composition is not a dict, and it
      changes no field but `構成比` and `主感情`, which it always sets. */
  lemma NormalizedFrame(fields: Dict<string, Value>, aliases: Dict<string, string>, allowed: seq<string>)
    ensures Normalized(fields, aliases, allowed).None? <==> CompositionOf(fields).None?
    ensures Normalized(fields, aliases, allowed).Some? ==>
      var out := Normalized(fields, aliases, allowed).value;
      && "構成比" in out.vals && "主感情" in out.vals
      && (forall k | k != "構成比" && k != "主感情" :: (k in out.vals <==> k in fields.vals))
      && (forall k | k != "構成比" && k != "主感情" && k in fields.vals :: out.vals[k] == fields.vals[k])
  {
  }

  /** When some value survives, `構成比` is the summed, allowed-only dict
      and `主感情` a key of it with the largest value, the first on ties. */
  lemma NormalizedMain(fields: Dict<string, Value>, aliases: Dict<string, string>, allowed: seq<string>)
    requires CompositionOf(fields).Some?
    requires var comp := CompositionOf(fields).value;
      |NormalizedUpTo(comp, |comp.keys|, aliases, allowed).keys| > 0
    ensures var comp := CompositionOf(fields).value;
      var normalized := NormalizedUpTo(comp, |comp.keys|, aliases, allowed);
      var out := Normalized(fields, aliases, allowed).value;
      && "構成比" in out.vals && out.vals["構成比"] == Obj(normalized)
      && "主感情" in out.vals && out.vals["主感情"].Text?
      && exists m | 0 <= m < |normalized.keys| ::
           && out.vals["主感情"].s == normalized.keys[m]
           && normalized.keys[m] in normalized.vals
           && (forall j | 0 <= j < |normalized.keys| :: NumValues(normalized)[j] <= NumValues(normalized)[m])
           && (forall j | 0 <= j < m :: NumValues(normalized)[j] < NumValues(normalized)[m])
  {
    var comp := CompositionOf(fields).value;
    var normalized := NormalizedUpTo(comp, |comp.keys|, aliases, allowed);
    NormalizedUpToKeys(comp, |comp.keys|, aliases, allowed);
    var m := Ranking.FirstMaxIndex(NumValues(normalized));
    assert normalized.keys[m] in normalized.vals;
  }

  /** When nothing survives, `構成比` is `{}` and `主感情` keeps a truthy old
      value or becomes "未定義". */
  lemma NormalizedEmpty(fields: Dict<string, Value>, aliases: Dict<string, string>, allowed: seq<string>)
    requires CompositionOf(fields).Some?
    requires var comp := CompositionOf(fields).value;
      |NormalizedUpTo(comp, |comp.keys|, aliases, allowed).keys| == 0
    ensures var out := Normalized(fields, aliases, allowed).value;
      && "構成比" in out.vals && out.vals["構成比"] == Obj(Empty())
      && "主感情" in out.vals
      && out.vals["主感情"] == (if "主感情" in fields.vals && Truthy(fields.vals["主感情"]) then fields.vals["主感情"]
                               else Text(Params.DefaultMainEmotion))
  {
  }

  // ---------------------------------------------------------------------
  // extract_emotion_summary

  /** `str(v)` of a number; `showFloat` stands for Python's text of a
      float, which is not modelled. */
  function NumText(v: Value, showFloat: real -> string): string {
    match v
    case Bool(b) => if b then "True" else "False"
    case Int(i) => ShowInt(i)
    case Float(x) => showFloat(x)
    case _ => ""
  }

  /** The numeric entries among the first `n` keys, in order. */
  function NumericEntries(comp: Dict<string, Value>, n: nat): seq<(string, Value)>
    requires n <= |comp.keys|
  {
    if n == 0 then []
    else
      var k := comp.keys[n - 1];
      NumericEntries(comp, n - 1) + if IsNumber(GetOr(comp, k, Null)) then [(k, GetOr(comp, k, Null))] else []
  }

  /** `[f"{k}:{v}%" for k, v in filtered.items()]` */
  function Rendered(entries: seq<(string, Value)>, showFloat: real -> string): seq<string> {
    if entries == [] then []
    else [entries[0].0 + ":" + NumText(entries[0].1, showFloat) + "%"] + Rendered(entries[1..], showFloat)
  }

  /** `extract_emotion_summary(emotion_data, main_emotion)`; `None` is a
      missing `emotion_data`. */
  function ExtractEmotionSummary(data: Option<Dict<string, Value>>, mainEmotion: string, showFloat: real -> string): string {
    var short := "（主感情: " + mainEmotion + "）";
    if data.None? || |data.value.keys| == 0 then short
    else
      match GetOr(data.value, "構成比", Null)
      case Obj(comp) =>
        var ratio := Join(Rendered(NumericEntries(comp, |comp.keys|), showFloat), ", ");
        "（主感情: " + mainEmotion + "｜構成比: " + ratio + "）"
      case _ => short
  }

  /** The filtered entries are exactly the numeric ones, in key order. */
  lemma {:induction false} NumericEntriesSpec(comp: Dict<string, Value>, n: nat)
    requires n <= |comp.keys|
    ensures forall x | x in NumericEntries(comp, n) :: IsNumber(x.1) && x.0 in comp.vals && comp.vals[x.0] == x.1
    ensures forall i | 0 <= i < n && comp.keys[i] in comp.vals && IsNumber(comp.vals[comp.keys[i]]) ::
      (comp.keys[i], comp.vals[comp.keys[i]]) in NumericEntries(comp, n)
    ensures |NumericEntries(comp, n)| <= n
  {
    if n > 0 {
      NumericEntriesSpec(comp, n - 1);
    }
  }

  /** One rendered `k:v%` item per numeric entry, and one more separator
      than items minus one. */
  lemma {:induction false} RenderedSpec(entries: seq<(string, Value)>, showFloat: real -> string)
    ensures |Rendered(entries, showFloat)| == |entries|
    ensures forall i | 0 <= i < |entries| ::
      Rendered(entries, showFloat)[i] == entries[i].0 + ":" + NumText(entries[i].1, showFloat) + "%"
  {
    if entries != [] {
      RenderedSpec(entries[1..], showFloat);
      var r := Rendered(entries, showFloat);
      forall i | 0 <= i < |entries|
        ensures r[i] == entries[i].0 + ":" + NumText(entries[i].1, showFloat) + "%"
      {
        if i > 0 {
          assert entries[i] == entries[1..][i - 1];
        }
      }
    }
  }

  /** Empty data or a composition that is not a dict gives the short form;
      otherwise the summary is the short form with the rendered numeric
      entries, joined by ", ", inserted before the closing bracket. */
  lemma ExtractSpec(data: Option<Dict<string, Value>>, mainEmotion: string, showFloat: real -> string)
    ensures var r := ExtractEmotionSummary(data, mainEmotion, showFloat);
      && (data.None? || |data.value.keys| == 0 || !GetOr(data.value, "構成比", Null).Obj? ==>
            r == "（主感情: " + mainEmotion + "）")
      && (data.Some? && |data.value.keys| > 0 && GetOr(data.value, "構成比", Null).Obj? ==>
            var comp := GetOr(data.value, "構成比", Null).fields;
            exists items: seq<string> ::
              && |items| == |NumericEntries(comp, |comp.keys|)|
              && (forall i | 0 <= i < |items| ::
                    items[i] == NumericEntries(comp, |comp.keys|)[i].0 + ":" + NumText(NumericEntries(comp, |comp.keys|)[i].1, showFloat) + "%")
              && r == "（主感情: " + mainEmotion + "｜構成比: " + Join(items, ", ") + "）")
  {
    if data.Some? && |data.value.keys| > 0 && GetOr(data.value, "構成比", Null).Obj? {
      var comp := GetOr(data.value, "構成比", Null).fields;
      RenderedSpec(NumericEntries(comp, |comp.keys|), showFloat);
    }
  }
}
