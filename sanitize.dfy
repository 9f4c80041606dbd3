/** `sanitize_output_for_display`: the text of a reply as the page shows
    it, without the JSON block the model appends.  The pattern `({.*})` is
    searched with DOTALL, so `.` also matches a newline and the greedy `.*`
    stretches the first match from the first `{` of the text to its last
    `}`; nothing after that `}` can match again, so that span is the last
    (and only) match.  `str.replace` then removes it, and no second
    occurrence of it can exist: one would need a `{` before the first `{`
    or a `}` after the last `}`. */
module Sanitize {
  import opened Text

  /** Some `{` has a `}` somewhere after it: the pattern matches. */
  predicate HasBlock(s: string) {
    exists i, j | 0 <= i < j < |s| :: s[i] == '{' && s[j] == '}'
  }

  /** The position of the first `{`, or `|s|` when there is none. */
  function FirstOpen(s: string): (i: nat)
    ensures i <= |s|
    ensures i < |s| ==> s[i] == '{'
    ensures forall k | 0 <= k < i :: s[k] != '{'
  {
    if |s| == 0 || s[0] == '{' then 0
    else
      var r := FirstOpen(s[1..]);
      assert forall k | 1 <= k < 1 + r :: s[k] == s[1..][k - 1];
      1 + r
  }

  /** One past the position of the last `}`, or 0 when there is none. */
  function LastCloseEnd(s: string): (e: nat)
    ensures e <= |s|
    ensures e > 0 ==> s[e - 1] == '}'
    ensures forall k | e <= k < |s| :: s[k] != '}'
  {
    if |s| == 0 || s[|s| - 1] == '}' then |s|
    else LastCloseEnd(s[..|s| - 1])
  }

  lemma BlockBounds(s: string)
    ensures HasBlock(s) <==> FirstOpen(s) + 1 < LastCloseEnd(s)
  {
    var f, e := FirstOpen(s), LastCloseEnd(s);
    if HasBlock(s) {
      var i, j :| 0 <= i < j < |s| && s[i] == '{' && s[j] == '}';
      assert f <= i && j < e;
    }
    if f + 1 < e {
      assert s[f] == '{' && s[e - 1] == '}';
    }
  }

  /** `sanitize_output_for_display(text)` */
  function SanitizeOutputForDisplay(text: string): string {
    var f := FirstOpen(text);
    var e := LastCloseEnd(text);
    if f + 1 < e then Strip(text[..f] + text[e..]) else Strip(text)
  }

  /** Every `}` of `t` comes before every `{` of it. */
  predicate ClosesFirst(t: string) {
    forall i, j | 0 <= i < j < |t| && t[i] == '{' :: t[j] != '}'
  }

  lemma ClosesFirstSlice(t: string, p: nat, q: nat)
    requires p <= q <= |t| && ClosesFirst(t)
    ensures ClosesFirst(t[p..q])
  {
    var u := t[p..q];
    forall i, j | 0 <= i < j < |u| && u[i] == '{' ensures u[j] != '}' {
      assert u[i] == t[p + i] && u[j] == t[p + j];
    }
  }

  lemma StrippedClosesFirst(t: string)
    requires ClosesFirst(t)
    ensures ClosesFirst(Strip(t)) && |Strip(t)| <= |t|
  {
    StripShape(t);
    var p, q :| 0 <= p <= q <= |t| && AllSpace(t[..p]) && AllSpace(t[q..]) && Strip(t) == t[p..q];
    ClosesFirstSlice(t, p, q);
  }

  /** `text[f..e]` runs from the first `{` of `text` to its last `}`. */
  predicate BlockSpan(text: string, f: nat, e: nat) {
    && f < e <= |text| && text[f] == '{' && text[e - 1] == '}'
    && (forall k | 0 <= k < f :: text[k] != '{')
    && (forall k | e <= k < |text| :: text[k] != '}')
  }

  /** What the pattern does: with no `{` followed by a `}` the text is only
      stripped; otherwise exactly the span from the first `{` to the last
      `}` is cut out and the rest stripped.  The result never holds a `{`
      followed by a `}`, sanitizing it again changes nothing, and it is
      never longer than the text. */
  lemma SanitizeSpec(text: string)
    ensures !HasBlock(text) ==> SanitizeOutputForDisplay(text) == Strip(text)
    ensures HasBlock(text) ==> exists f: nat, e: nat | BlockSpan(text, f, e) ::
      SanitizeOutputForDisplay(text) == Strip(text[..f] + text[e..])
    ensures !HasBlock(SanitizeOutputForDisplay(text))
    ensures SanitizeOutputForDisplay(SanitizeOutputForDisplay(text)) == SanitizeOutputForDisplay(text)
    ensures |SanitizeOutputForDisplay(text)| <= |text|
  {
    BlockBounds(text);
    var f, e := FirstOpen(text), LastCloseEnd(text);
    var r := SanitizeOutputForDisplay(text);
    var t := if f + 1 < e then text[..f] + text[e..] else text;
    assert r == Strip(t);
    if f + 1 < e {
      forall i, j | 0 <= i < j < |t| && t[i] == '{' ensures t[j] != '}' {
        assert i >= f;
        assert t[j] == text[e + j - f];
      }
    } else {
      forall i, j | 0 <= i < j < |t| && t[i] == '{' ensures t[j] != '}' {
        assert f <= i;
        assert e <= j;
      }
    }
    StrippedClosesFirst(t);
    assert !HasBlock(r);
    BlockBounds(r);
    StripIdempotent(t);
    if f + 1 < e {
      assert BlockSpan(text, f, e);
    }
  }
}
