/** The origin allow-list of websocket/websocket.go: `ALLOWED_ORIGINS` split on commas (line 26)
    and the upgrader's `CheckOrigin` (lines 31-38), the origin check of section 10.2 of RFC 6455.
    An absent `Origin` header reads as the empty string, as `Header.Get` returns it. */
module Origins {

  /** `unicode.IsSpace`: the Latin-1 spaces and the other code points with Unicode's
      White_Space property. */
  predicate IsSpace(c: char) {
    c == ' ' || c == '\t' || c == '\n' || c == '\U{0B}' || c == '\U{0C}' || c == '\r'
    || c == '\U{85}' || c == '\U{A0}' || c == '\U{1680}'
    || ('\U{2000}' <= c <= '\U{200A}')
    || c == '\U{2028}' || c == '\U{2029}' || c == '\U{202F}' || c == '\U{205F}' || c == '\U{3000}'
  }

  /** Drop the leading white space. */
  function TrimLeft(s: string): (r: string)
    ensures |r| <= |s| && r == s[|s| - |r|..]
    ensures forall i :: 0 <= i < |s| - |r| ==> IsSpace(s[i])
    ensures r == [] || !IsSpace(r[0])
    decreases |s|
  {
    if s != [] && IsSpace(s[0]) then TrimLeft(s[1..]) else s
  }

  /** Drop the trailing white space. */
  function TrimRight(s: string): (r: string)
    ensures |r| <= |s| && r == s[..|r|]
    ensures forall i :: |r| <= i < |s| ==> IsSpace(s[i])
    ensures r == [] || !IsSpace(r[|r| - 1])
    decreases |s|
  {
    if s != [] && IsSpace(s[|s| - 1]) then TrimRight(s[..|s| - 1]) else s
  }

  /** `strings.TrimSpace`: the middle of `s` between its leading and trailing white space. */
  function TrimSpace(s: string): (r: string)
    ensures exists i, j :: 0 <= i <= j <= |s| && r == s[i..j]
              && (forall k :: 0 <= k < i ==> IsSpace(s[k]))
              && (forall k :: j <= k < |s| ==> IsSpace(s[k]))
    ensures r == [] || (!IsSpace(r[0]) && !IsSpace(r[|r| - 1]))
  {
    var left := TrimLeft(s);
    var r := TrimRight(left);
    var i := |s| - |left|;
    assert r == s[i..i + |r|];
    r
  }

  /** `strings.Split(s, string(sep))` for a one-character separator: the pieces between the
      separators, as many as there are separators plus one. */
  function Split(s: string, sep: char): (r: seq<string>)
    ensures |r| >= 1
    ensures forall i :: 0 <= i < |r| ==> sep !in r[i]
    decreases |s|
  {
    if s == [] then [""]
    else
      var rest := Split(s[1..], sep);
      if s[0] == sep then [""] + rest
      else [[s[0]] + rest[0]] + rest[1..]
  }

  /** `strings.Join(parts, string(sep))`. */
  function Join(parts: seq<string>, sep: char): string
    requires |parts| >= 1
    decreases |parts|
  {
    if |parts| == 1 then parts[0] else parts[0] + [sep] + Join(parts[1..], sep)
  }

  lemma {:induction false} JoinCons(c: char, parts: seq<string>, sep: char)
    requires |parts| >= 1
    ensures [c] + Join(parts, sep) == Join([[c] + parts[0]] + parts[1..], sep)
  {
    var moved := [[c] + parts[0]] + parts[1..];
    assert moved[1..] == parts[1..];
    if |parts| > 1 {
      assert [c] + Join(parts, sep) == [c] + (parts[0] + [sep] + Join(parts[1..], sep));
    }
  }

  /** Joining the pieces with the separator gives back the original text. */
  lemma {:induction false} JoinSplit(s: string, sep: char)
    ensures Join(Split(s, sep), sep) == s
    decreases |s|
  {
    if s != [] {
      var rest := Split(s[1..], sep);
      JoinSplit(s[1..], sep);
      if s[0] == sep {
        assert ([""] + rest)[1..] == rest;
        assert Join([""] + rest, sep) == [sep] + Join(rest, sep);
      } else {
        JoinCons(s[0], rest, sep);
      }
      assert s == [s[0]] + s[1..];
    }
  }

  /** Pieces that hold no separator are recovered exactly by splitting their join. */
  lemma {:induction false} SplitJoin(parts: seq<string>, sep: char)
    requires |parts| >= 1
    requires forall i :: 0 <= i < |parts| ==> sep !in parts[i]
    ensures Split(Join(parts, sep), sep) == parts
    decreases |parts|, |parts[0]|
  {
    if |parts[0]| > 0 {
      var head := parts[0];
      var shorter := [head[1..]] + parts[1..];
      forall i | 0 <= i < |shorter| ensures sep !in shorter[i] {
        if i == 0 { assert forall k :: 0 <= k < |head[1..]| ==> head[1..][k] == head[k + 1]; }
        else { assert shorter[i] == parts[i]; }
      }
      SplitJoin(shorter, sep);
      assert shorter[1..] == parts[1..];
      JoinCons(head[0], shorter, sep);
      assert [head[0]] + head[1..] == head;
      assert [[head[0]] + shorter[0]] + shorter[1..] == parts;
      var joined := Join(parts, sep);
      assert joined == [head[0]] + Join(shorter, sep);
      assert joined[1..] == Join(shorter, sep);
      assert joined[0] == head[0] && head[0] != sep;
    } else if |parts| > 1 {
      SplitJoin(parts[1..], sep);
      var joined := Join(parts, sep);
      assert joined == [sep] + Join(parts[1..], sep);
      assert joined[1..] == Join(parts[1..], sep);
      assert [""] + parts[1..] == parts;
    }
  }

  /** The allow-list read from the value of `ALLOWED_ORIGINS` (the empty string when unset). */
  function AllowedOrigins(env: string): (r: seq<string>)
    ensures |r| >= 1
    ensures forall i :: 0 <= i < |r| ==> ',' !in r[i]
  {
    Split(env, ',')
  }

  /** The origin equals some entry of the list once that entry is trimmed. The origin itself
      is compared as it is. */
  predicate Admits(allowed: seq<string>, origin: string) {
    exists i :: 0 <= i < |allowed| && origin == TrimSpace(allowed[i])
  }

  /** The upgrader's check: walk the list and accept at the first entry that matches. */
  method CheckOrigin(allowed: seq<string>, origin: string) returns (ok: bool)
    ensures ok <==> Admits(allowed, origin)
  {
    var i := 0;
    while i < |allowed|
      invariant 0 <= i <= |allowed|
      invariant forall k :: 0 <= k < i ==> origin != TrimSpace(allowed[k])
    {
      if origin == TrimSpace(allowed[i]) {
        return true;
      }
      i := i + 1;
    }
    return false;
  }

  /** With `ALLOWED_ORIGINS` unset the list is `[""]`, which admits exactly the requests whose
      Origin is absent or empty. */
  lemma UnsetAdmitsOnlyEmpty(origin: string)
    ensures AllowedOrigins("") == [""]
    ensures Admits(AllowedOrigins(""), origin) <==> origin == ""
  {
    assert TrimSpace("") == "";
    if origin == "" { assert origin == TrimSpace(AllowedOrigins("")[0]); }
  }

  /** Entries are trimmed and the origin is not, so an origin that begins or ends with white
      space is refused whatever the list holds. */
  lemma PaddedOriginRefused(allowed: seq<string>, origin: string)
    requires origin != [] && (IsSpace(origin[0]) || IsSpace(origin[|origin| - 1]))
    ensures !Admits(allowed, origin)
  {
    forall i | 0 <= i < |allowed| ensures origin != TrimSpace(allowed[i]) {
      var t := TrimSpace(allowed[i]);
      if t != [] {
        assert !IsSpace(t[0]) && !IsSpace(t[|t| - 1]);
      }
    }
  }

  /** An entry written with spaces around it, as in "a.example, b.example", still admits the
      bare origin. */
  lemma SpacedEntryAdmitsBareOrigin(allowed: seq<string>, k: nat, origin: string, pad: string, tail: string)
    requires k < |allowed| && allowed[k] == pad + origin + tail
    requires forall c :: c in pad ==> IsSpace(c)
    requires forall c :: c in tail ==> IsSpace(c)
    requires origin != [] && !IsSpace(origin[0]) && !IsSpace(origin[|origin| - 1])
    ensures Admits(allowed, origin)
  {
    PaddingTrimmed(pad, origin, tail);
    assert origin == TrimSpace(allowed[k]);
  }

  lemma {:induction false} PaddingTrimmed(pad: string, core: string, tail: string)
    requires forall c :: c in pad ==> IsSpace(c)
    requires forall c :: c in tail ==> IsSpace(c)
    requires core != [] && !IsSpace(core[0]) && !IsSpace(core[|core| - 1])
    ensures TrimSpace(pad + core + tail) == core
  {
    var s := pad + core + tail;
    var left := TrimLeft(s);
    // TrimLeft stops at the first non-space, which is core[0] at index |pad|
    assert s[|pad|] == core[0];
    assert |s| - |left| == |pad|;
    assert left == core + tail;
    var r := TrimRight(left);
    assert left[|core| - 1] == core[|core| - 1];
    assert |r| == |core|;
    assert r == left[..|core|] == core;
  }
}
