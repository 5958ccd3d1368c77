/**
 * Cleanup of the free text that follows a statement keyword or a `:`
 * (message text, note text, block labels, aliases, the title).
 * The text of a statement ends at the first `;` (statement separator) or `#`
 * (comment), surrounding whitespace is dropped, and an absent label is ''.
 * Everything else, line-break markup such as `<br />` included, is kept verbatim.
 */
module Labels {

  predicate IsSpace(c: char) {
    c == ' ' || c == '\t' || c == '\r' || c == '\n'
  }

  /** The characters at which a label stops. */
  predicate IsStop(c: char) {
    c == ';' || c == '#'
  }

  predicate NoStops(s: string) {
    forall i :: 0 <= i < |s| ==> !IsStop(s[i])
  }

  /** Neither starts nor ends with whitespace. */
  predicate Trimmed(s: string) {
    s == [] || (!IsSpace(s[0]) && !IsSpace(s[|s| - 1]))
  }

  predicate AllSpace(s: string) {
    forall i :: 0 <= i < |s| ==> IsSpace(s[i])
  }

  /** The longest prefix of `s` without `;` or `#`. */
  function CutAtStop(s: string): (r: string)
    ensures r <= s
    ensures NoStops(r)
    ensures |r| < |s| ==> IsStop(s[|r|])
  {
    if s == [] || IsStop(s[0]) then [] else [s[0]] + CutAtStop(s[1..])
  }

  /** `s` without its leading whitespace. */
  function TrimStart(s: string): (r: string)
    ensures |r| <= |s| && r == s[|s| - |r|..]
    ensures AllSpace(s[..|s| - |r|])
    ensures r == [] || !IsSpace(r[0])
  {
    if s != [] && IsSpace(s[0]) then TrimStart(s[1..]) else s
  }

  /** `s` without its trailing whitespace. */
  function TrimEnd(s: string): (r: string)
    ensures r <= s
    ensures AllSpace(s[|r|..])
    ensures r == [] || !IsSpace(r[|r| - 1])
  {
    if s != [] && IsSpace(s[|s| - 1]) then TrimEnd(s[..|s| - 1]) else s
  }

  lemma NoStopsSlice(s: string, i: int, j: int)
    requires NoStops(s) && 0 <= i <= j <= |s|
    ensures NoStops(s[i..j])
  {
    forall k | 0 <= k < j - i ensures !IsStop(s[i..j][k]) {
      assert s[i..j][k] == s[i + k];
    }
  }

  /** `s` without surrounding whitespace. */
  function Trim(s: string): (r: string)
    ensures Trimmed(r) && |r| <= |s|
    ensures NoStops(s) ==> NoStops(r)
  {
    var t := TrimStart(s);
    var r := TrimEnd(t);
    if NoStops(s) then
      NoStopsSlice(s, |s| - |t|, |s|);
      assert r == t[..|r|];
      NoStopsSlice(t, 0, |r|);
      r
    else r
  }

  /** The label carried by the raw rest-of-statement text `raw`. */
  function CleanLabel(raw: string): (r: string)
    ensures NoStops(r) && Trimmed(r)
  {
    Trim(CutAtStop(raw))
  }

  /**
   * Every raw text splits as leading blanks, the label, trailing blanks and
   * either nothing or a stop character with anything after it; the label is
   * what CleanLabel keeps, verbatim.
   */
  lemma CleanLabelOf(pre: string, body: string, post: string, rest: string)
    requires AllSpace(pre) && AllSpace(post) && NoStops(body) && Trimmed(body)
    requires rest == [] || IsStop(rest[0])
    ensures CleanLabel(pre + body + post + rest) == body
  {
    assert NoStops(pre + body + post) by {
      forall i | 0 <= i < |pre + body + post| ensures !IsStop((pre + body + post)[i]) {
        if i < |pre| { assert IsSpace(pre[i]); }
        else if i >= |pre| + |body| { assert IsSpace(post[i - |pre| - |body|]); }
      }
    }
    assert pre + body + post + rest == (pre + body + post) + rest;
    CutAtStopOf(pre + body + post, rest);
    TrimOf(pre, body, post);
  }

  lemma {:induction false} CutAtStopOf(a: string, rest: string)
    requires NoStops(a)
    requires rest == [] || IsStop(rest[0])
    ensures CutAtStop(a + rest) == a
  {
    if a != [] {
      assert (a + rest)[1..] == a[1..] + rest;
      CutAtStopOf(a[1..], rest);
    }
  }

  lemma {:induction false} TrimStartOf(pre: string, t: string)
    requires AllSpace(pre)
    requires t == [] || !IsSpace(t[0])
    ensures TrimStart(pre + t) == t
  {
    if pre != [] {
      assert (pre + t)[1..] == pre[1..] + t;
      TrimStartOf(pre[1..], t);
    }
  }

  lemma {:induction false} TrimEndOf(t: string, post: string)
    requires AllSpace(post)
    requires t == [] || !IsSpace(t[|t| - 1])
    ensures TrimEnd(t + post) == t
  {
    if post != [] {
      assert (t + post)[..|t + post| - 1] == t + post[..|post| - 1];
      TrimEndOf(t, post[..|post| - 1]);
    }
  }

  lemma TrimOf(pre: string, body: string, post: string)
    requires AllSpace(pre) && AllSpace(post) && Trimmed(body)
    ensures Trim(pre + body + post) == body
  {
    if body == [] {
      assert pre + body + post == (pre + post) + [];
      TrimStartOf(pre + post, []);
    } else {
      assert pre + body + post == pre + (body + post);
      TrimStartOf(pre, body + post);
      TrimEndOf(body, post);
    }
  }

  /** A body that already has no stop character and no surrounding whitespace comes out verbatim. */
  lemma CleanLabelVerbatim(s: string)
    requires NoStops(s) && Trimmed(s)
    ensures CleanLabel(s) == s
  {
    assert [] + s + [] + [] == s;
    CleanLabelOf([], s, [], []);
  }

  /** Cleaning twice is cleaning once. */
  lemma CleanLabelIdempotent(raw: string)
    ensures CleanLabel(CleanLabel(raw)) == CleanLabel(raw)
  {
    CleanLabelVerbatim(CleanLabel(raw));
  }

  const WrapPrefix: string := "wrap:"

  predicate HasWrapPrefix(t: string) {
    |WrapPrefix| <= |t| && t[..|WrapPrefix|] == WrapPrefix
  }

  /** The text of a message, note or block label, and whether it asked for wrapping with `wrap:`. */
  datatype Message = Message(text: string, wrapPrefixed: bool)

  /**
   * `parseMessage`: the cleaned text; one that starts with `wrap:` loses
   * that prefix and is marked as asking for wrapping, any other is kept as
   * cleaned and leaves wrapping to the diagram's setting.
   */
  function ParseMessage(raw: string): (m: Message)
    ensures NoStops(m.text) && Trimmed(m.text)
    ensures m.wrapPrefixed <==> HasWrapPrefix(CleanLabel(raw))
    ensures !m.wrapPrefixed ==> m.text == CleanLabel(raw)
  {
    var t := CleanLabel(raw);
    if HasWrapPrefix(t) then
      NoStopsSlice(t, |WrapPrefix|, |t|);
      Message(Trim(t[|WrapPrefix|..|t|]), true)
    else
      Message(t, false)
  }

  lemma NoStopsConcat(a: string, b: string)
    requires NoStops(a) && NoStops(b)
    ensures NoStops(a + b)
  {
    forall i | 0 <= i < |a + b| ensures !IsStop((a + b)[i]) {
      if i >= |a| { assert (a + b)[i] == b[i - |a|]; }
    }
  }

  lemma WrapTextClean(gap: string, body: string)
    requires AllSpace(gap) && NoStops(body) && Trimmed(body) && body != []
    ensures var text := WrapPrefix + (gap + body);
      NoStops(text) && Trimmed(text) && HasWrapPrefix(text) && text[|WrapPrefix|..|text|] == gap + body + []
  {
    var text := WrapPrefix + (gap + body);
    assert NoStops(WrapPrefix);
    assert NoStops(gap) by {
      forall i | 0 <= i < |gap| ensures !IsStop(gap[i]) { assert IsSpace(gap[i]); }
    }
    NoStopsConcat(gap, body);
    NoStopsConcat(WrapPrefix, gap + body);
    assert text[0] == 'w' && text[|text| - 1] == body[|body| - 1];
    assert text[..|WrapPrefix|] == WrapPrefix;
  }

  /**
   * A text reading `wrap:`, blanks and a body, with blanks around and an
   * optional comment after, asks for wrapping and carries the body alone:
   * `wrap: Hello Bob` gives `Hello Bob`.
   */
  lemma ParseMessageWrapped(pre: string, gap: string, body: string, post: string, rest: string)
    requires AllSpace(pre) && AllSpace(gap) && AllSpace(post)
    requires NoStops(body) && Trimmed(body) && body != []
    requires rest == [] || IsStop(rest[0])
    ensures ParseMessage(pre + WrapPrefix + gap + body + post + rest) == Message(body, true)
  {
    var text := WrapPrefix + (gap + body);
    var raw := pre + WrapPrefix + gap + body + post + rest;
    WrapTextClean(gap, body);
    assert raw == pre + text + post + rest;
    CleanLabelOf(pre, text, post, rest);
    TrimOf(gap, body, []);
  }
}
