/** Extraction of the JSON text from a model completion (src/app/api/generate-schema/route.ts):
    `content.match(/```json\s*([\s\S]*?)\s*```/) || content.match(/```\s*([\s\S]*?)\s*```/)
    || [null, content]`, then `match[1] || content`, then `trim()`.

    `Capture` follows how a backtracking engine runs such an expression: the leftmost
    start, the leading `\s*` greedy, the group `([\s\S]*?)` lazy. `Between` is the
    plain reading (the trimmed text between the first marker and the next fence), and
    `CaptureIsBetween` proves the two agree. */
module FencedJson {
  import opened Wrappers
  import opened JsText

  /** The two opening markers: ```json and a bare ```. */
  datatype Marker = JsonMarker | PlainMarker
  {
    function Width(): nat {
      match this
      case JsonMarker => 7
      case PlainMarker => 3
    }
  }

  const Fence := "```"
  const JsonFence := "```json"

  /** Three backticks start at `i`. */
  predicate FenceAt(s: string, i: int) {
    0 <= i && i + 3 <= |s| && s[i] == '`' && s[i + 1] == '`' && s[i + 2] == '`'
  }

  /** The opening marker `m` starts at `i`. */
  predicate MarkerAt(s: string, m: Marker, i: int) {
    FenceAt(s, i) &&
    (m == PlainMarker ||
     (i + 7 <= |s| && s[i + 3] == 'j' && s[i + 4] == 's' && s[i + 5] == 'o' && s[i + 6] == 'n'))
  }

  /** `s.indexOf("```", from)`: the first fence at or after `from`. */
  function NextFence(s: string, from: nat): (r: Option<nat>)
    ensures r.Some? ==> from <= r.value && FenceAt(s, r.value)
    ensures forall i :: from <= i && (r.None? || i < r.value) ==> !FenceAt(s, i)
    decreases |s| - from
  {
    if from + 3 > |s| then None
    else if FenceAt(s, from) then Some(from)
    else NextFence(s, from + 1)
  }

  /** The first opening marker `m` at or after `from`. */
  function NextMarker(s: string, m: Marker, from: nat): (r: Option<nat>)
    ensures r.Some? ==> from <= r.value && MarkerAt(s, m, r.value)
    ensures forall i :: from <= i && (r.None? || i < r.value) ==> !MarkerAt(s, m, i)
    decreases |s| - from
  {
    if from + 3 > |s| then None
    else if MarkerAt(s, m, from) then Some(from)
    else NextMarker(s, m, from + 1)
  }

  /** A fence at or after `from` is found, there or earlier. */
  lemma NextFenceFinds(s: string, from: nat, q: nat)
    requires from <= q && FenceAt(s, q)
    ensures NextFence(s, from).Some? && NextFence(s, from).value <= q
  {
  }

  /** Where a greedy `\s*` starting at `i` stops. */
  function SkipSpace(s: string, i: nat): (j: nat)
    requires i <= |s|
    ensures i <= j <= |s|
    ensures forall k :: i <= k < j ==> IsSpace(s[k])
    ensures j == |s| || !IsSpace(s[j])
    decreases |s| - i
  {
    if i < |s| && IsSpace(s[i]) then SkipSpace(s, i + 1) else i
  }

  /** The tail `\s*```` matches at `e`. A fence starts with a backtick, which is not
      white space, so giving back white space from the greedy `\s*` never helps: the
      tail matches exactly when a fence follows the greedy run. */
  predicate ClosesAt(s: string, e: nat)
    requires e <= |s|
  {
    FenceAt(s, SkipSpace(s, e))
  }

  /** Where the lazy group stops when it starts at `e`: the first position from which
      the tail matches. */
  function LazyEnd(s: string, e: nat): (r: nat)
    requires e <= |s| && NextFence(s, e).Some?
    ensures e <= r <= |s| && ClosesAt(s, r)
    ensures forall k :: e <= k < r ==> !ClosesAt(s, k)
    decreases |s| - e
  {
    if ClosesAt(s, e) then e
    else LazyEnd(s, e + 1)
  }

  /** The leftmost position at or after `p` where the expression for `m` matches: the
      marker occurs there and some fence follows it (the lazy group can always stretch
      as far as that fence). */
  function MatchStart(s: string, m: Marker, p: nat): (r: Option<nat>)
    ensures r.Some? ==> p <= r.value && MarkerAt(s, m, r.value) && NextFence(s, r.value + m.Width()).Some?
    ensures forall i :: p <= i && (r.None? || i < r.value) && MarkerAt(s, m, i) ==> NextFence(s, i + m.Width()).None?
    decreases |s| - p
  {
    if p + 3 > |s| then None
    else if MarkerAt(s, m, p) && NextFence(s, p + m.Width()).Some? then Some(p)
    else MatchStart(s, m, p + 1)
  }

  /** The greedy `\s*` after the opening marker cannot pass the first fence. */
  lemma FenceAfterSpace(s: string, a: nat)
    requires a <= |s| && NextFence(s, a).Some?
    ensures SkipSpace(s, a) <= NextFence(s, a).value
    ensures NextFence(s, SkipSpace(s, a)) == NextFence(s, a)
  {
    var q := NextFence(s, a).value;
    NextFenceFinds(s, SkipSpace(s, a), q);
  }

  /** `match[1]` of the leftmost match of the expression for `m`, or `None` when it
      does not match. */
  function Capture(s: string, m: Marker): Option<string>
  {
    match MatchStart(s, m, 0)
    case None => None
    case Some(p) =>
      var b := SkipSpace(s, p + m.Width());
      FenceAfterSpace(s, p + m.Width());
      Some(s[b..LazyEnd(s, b)])
  }

  /** The plain reading of a fenced block: the text between the first marker `m` and
      the next fence after it, trimmed; `None` when either is missing. */
  function Between(s: string, m: Marker): Option<string>
  {
    match NextMarker(s, m, 0)
    case None => None
    case Some(p) =>
      match NextFence(s, p + m.Width())
      case None => None
      case Some(q) => Some(Trim(s[p + m.Width()..q]))
  }

  /** The expression starts matching at the first marker, and only if a fence follows
      that marker. */
  lemma MatchStartIsFirst(s: string, m: Marker)
    ensures MatchStart(s, m, 0).Some? <==>
            (NextMarker(s, m, 0).Some? && NextFence(s, NextMarker(s, m, 0).value + m.Width()).Some?)
    ensures MatchStart(s, m, 0).Some? ==> MatchStart(s, m, 0) == NextMarker(s, m, 0)
  {
    var r := MatchStart(s, m, 0);
    var f := NextMarker(s, m, 0);
    if r.Some? {
      MatchAtFirstMarker(s, m, r.value, f);
    } else if f.Some? {
      assert MarkerAt(s, m, f.value);
    }
  }

  /** A match starts at the first marker: an earlier start would be a marker with a
      fence after it, which the leftmost match would have taken. */
  lemma MatchAtFirstMarker(s: string, m: Marker, p: nat, f: Option<nat>)
    requires MatchStart(s, m, 0) == Some(p) && f == NextMarker(s, m, 0)
    ensures f == Some(p)
  {
    assert MarkerAt(s, m, p);
    var q := NextFence(s, p + m.Width()).value;
    assert FenceAt(s, q);
  }

  /** The greedy `\s*` after the marker drops exactly the leading white space of the
      text before the next fence. */
  lemma SkipSpaceIsTrimStart(s: string, a: nat, q: nat)
    requires a <= q <= |s| && SkipSpace(s, a) <= q
    ensures TrimStart(s[a..q]) == s[SkipSpace(s, a)..q]
  {
    var b := SkipSpace(s, a);
    assert s[a..q] == s[a..b] + s[b..q];
    assert b < q ==> !IsSpace(s[b]);
    TrimStartUnique(s[a..q], s[a..b], s[b..q]);
  }

  /** The lazy group stops where the white space before the next fence begins. */
  lemma LazyEndAtTrailingSpace(s: string, b: nat, q: nat)
    requires b <= |s| && NextFence(s, b) == Some(q)
    ensures b <= LazyEnd(s, b) <= q && SkipSpace(s, LazyEnd(s, b)) == q
  {
    var e := LazyEnd(s, b);
    assert ClosesAt(s, q);
    assert e <= q;
    NextFenceFinds(s, b, SkipSpace(s, e));
  }

  /** The lazy group does not end in white space. */
  lemma LazyEndNoTrailingSpace(s: string, b: nat)
    requires b <= |s| && NextFence(s, b).Some?
    ensures LazyEnd(s, b) == b || !IsSpace(s[LazyEnd(s, b) - 1])
  {
    var e := LazyEnd(s, b);
    assert e > b ==> !ClosesAt(s, e - 1);
  }

  /** The white space between the lazy group and the fence is the trailing white
      space of the text before the fence. */
  lemma LazyEndIsTrimEnd(s: string, b: nat, q: nat)
    requires b <= |s| && NextFence(s, b) == Some(q)
    ensures LazyEnd(s, b) <= q && TrimEnd(s[b..q]) == s[b..LazyEnd(s, b)]
  {
    LazyEndAtTrailingSpace(s, b, q);
    LazyEndNoTrailingSpace(s, b);
    var e := LazyEnd(s, b);
    assert s[b..q] == s[b..e] + s[e..q];
    TrimEndUnique(s[b..q], s[b..e], s[e..q]);
  }

  /** From just after the marker, the greedy `\s*` and the lazy group pick out the
      text before the next fence with its surrounding white space excluded. */
  lemma SpaceAndLazyTrim(s: string, a: nat, q: nat)
    requires a <= |s| && NextFence(s, a) == Some(q)
    ensures var b := SkipSpace(s, a);
            b <= q && LazyEnd(s, b) <= q && Trim(s[a..q]) == s[b..LazyEnd(s, b)]
  {
    FenceAfterSpace(s, a);
    var b := SkipSpace(s, a);
    SkipSpaceIsTrimStart(s, a, q);
    LazyEndIsTrimEnd(s, b, q);
  }

  /** The backtracking semantics of the expression and the plain reading agree: the
      capture is the text between the first marker and the next fence with the
      surrounding white space excluded. */
  lemma CaptureIsBetween(s: string, m: Marker)
    ensures Capture(s, m) == Between(s, m)
  {
    MatchStartIsFirst(s, m);
    var r := MatchStart(s, m, 0);
    if r.Some? {
      var a := r.value + m.Width();
      SpaceAndLazyTrim(s, a, NextFence(s, a).value);
    }
  }

  /** The text handed to `JSON.parse`: the capture of the ```json expression, else of
      the plain fence expression, else the whole content; an empty capture falls back
      to the whole content; the result is trimmed. */
  function JsonText(content: string): (text: string)
    ensures Trim(text) == text
  {
    var captured :=
      match Capture(content, JsonMarker)
      case Some(c) => c
      case None =>
        match Capture(content, PlainMarker)
        case Some(c) => c
        case None => content;
    TrimIdempotent(if captured == "" then content else captured);
    Trim(if captured == "" then content else captured)
  }

  /** A plain reading is already trimmed. */
  lemma BetweenTrimmed(s: string, m: Marker)
    requires Between(s, m).Some?
    ensures Trim(Between(s, m).value) == Between(s, m).value
  {
    var p := NextMarker(s, m, 0).value;
    TrimIdempotent(s[p + m.Width()..NextFence(s, p + m.Width()).value]);
  }

  /** The preference order, in the plain reading: a non-empty ```json block wins, then
      a non-empty plain fenced block, and otherwise the whole content, trimmed. */
  lemma JsonTextPreference(content: string)
    ensures Between(content, JsonMarker).Some? && Between(content, JsonMarker).value != "" ==>
              JsonText(content) == Between(content, JsonMarker).value
    ensures Between(content, JsonMarker) == Some("") ==>
              JsonText(content) == Trim(content)
    ensures Between(content, JsonMarker).None? && Between(content, PlainMarker).Some? &&
            Between(content, PlainMarker).value != "" ==>
              JsonText(content) == Between(content, PlainMarker).value
    ensures Between(content, JsonMarker).None? && Between(content, PlainMarker) == Some("") ==>
              JsonText(content) == Trim(content)
    ensures Between(content, JsonMarker).None? && Between(content, PlainMarker).None? ==>
              JsonText(content) == Trim(content)
  {
    CaptureIsBetween(content, JsonMarker);
    CaptureIsBetween(content, PlainMarker);
    if Between(content, JsonMarker).Some? {
      BetweenTrimmed(content, JsonMarker);
    } else if Between(content, PlainMarker).Some? {
      BetweenTrimmed(content, PlainMarker);
    }
  }

  /** A non-empty ```json block is what gets parsed, once its positions are known. */
  lemma JsonTextOfBlock(s: string, p: nat, q: nat)
    requires NextMarker(s, JsonMarker, 0) == Some(p) && NextFence(s, p + 7) == Some(q)
    requires Trim(s[p + 7..q]) != ""
    ensures JsonText(s) == Trim(s[p + 7..q])
  {
    assert Between(s, JsonMarker) == Some(Trim(s[p + 7..q]));
    JsonTextPreference(s);
  }

  /** A marker preceded only by backtick-free text is the first one. */
  lemma FirstMarkerAt(s: string, p: nat)
    requires MarkerAt(s, JsonMarker, p)
    requires forall i :: 0 <= i < p ==> s[i] != '`'
    ensures NextMarker(s, JsonMarker, 0) == Some(p)
  {
  }

  /** A fence preceded, from `a` on, only by backtick-free text is the next one. */
  lemma FirstFenceAt(s: string, a: nat, q: nat)
    requires a <= q && FenceAt(s, q)
    requires forall i :: a <= i < q ==> s[i] != '`'
    ensures NextFence(s, a) == Some(q)
  {
    NextFenceFinds(s, a, q);
  }

  /** A ```json marker after backtick-free text, then a backtick-free body, then a
      fence: the body is what gets parsed, trimmed. */
  lemma JsonBlockAt(s: string, p: nat, q: nat)
    requires MarkerAt(s, JsonMarker, p) && p + 7 <= q && FenceAt(s, q)
    requires forall i :: 0 <= i < p ==> s[i] != '`'
    requires forall i :: p + 7 <= i < q ==> s[i] != '`'
    requires Trim(s[p + 7..q]) != ""
    ensures JsonText(s) == Trim(s[p + 7..q])
  {
    FirstMarkerAt(s, p);
    FirstFenceAt(s, p + 7, q);
    JsonTextOfBlock(s, p, q);
  }

  /** A ```json marker at `p` after backtick-free text, then `body` without backticks,
      then a closing fence. */
  ghost predicate BlockLayout(s: string, p: nat, body: string) {
    MarkerAt(s, JsonMarker, p) && p + 7 + |body| <= |s| && FenceAt(s, p + 7 + |body|) &&
    (forall i :: 0 <= i < p ==> s[i] != '`') &&
    (forall i :: p + 7 <= i < p + 7 + |body| ==> s[i] != '`') &&
    s[p + 7..p + 7 + |body|] == body
  }

  /** A block laid out this way is read as its trimmed body. */
  lemma BlockLayoutText(s: string, p: nat, body: string)
    requires BlockLayout(s, p, body) && Trim(body) != ""
    ensures JsonText(s) == Trim(body)
  {
    JsonBlockAt(s, p, p + 7 + |body|);
  }

  /** Where the marker, the body and the fence sit in prose around a ```json block. */
  lemma ProseLayout(pre: string, body: string, post: string, s: string)
    requires '`' !in pre && '`' !in body
    requires s == pre + JsonFence + body + Fence + post
    ensures BlockLayout(s, |pre|, body)
  {
    var p := |pre|;
    var q := p + 7 + |body|;
    assert s[q] == '`' && s[q + 1] == '`' && s[q + 2] == '`';
    assert s[p..p + 7] == JsonFence;
    assert forall i :: 0 <= i < p ==> s[i] == pre[i];
    assert forall i :: p + 7 <= i < q ==> s[i] == body[i - p - 7];
    assert s[p + 7..q] == body;
  }

  /** A ```json block inside prose without backticks is read as its own trimmed
      body, whatever the surrounding prose says. */
  lemma FencedBlockInProse(pre: string, body: string, post: string)
    requires '`' !in pre && '`' !in body && Trim(body) != ""
    ensures JsonText(pre + JsonFence + body + Fence + post) == Trim(body)
  {
    var s := pre + JsonFence + body + Fence + post;
    ProseLayout(pre, body, post, s);
    BlockLayoutText(s, |pre|, body);
  }

  /** Content with no backtick at all is parsed whole, trimmed. */
  lemma UnfencedContent(content: string)
    requires '`' !in content
    ensures JsonText(content) == Trim(content)
  {
    forall i: int, m: Marker
      ensures !MarkerAt(content, m, i)
    {
      assert 0 <= i < |content| ==> content[i] != '`';
    }
    JsonTextPreference(content);
  }
}
