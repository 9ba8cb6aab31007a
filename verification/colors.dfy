/**
 * The colour helpers of the options page: `normalizeColor` (a `#rrggbb`
 * validator and canonicaliser), `ensureHistoryArray` and `pushColorFifo`
 * (a bounded most-recently-used list of colours, newest last).
 */
module Colors {
  import opened Optional
  import opened JsValues

  /** Colour histories keep at most this many entries. */
  const MaxHistory: nat := 10

  /** The palette a history falls back to when nothing usable is stored. */
  const TemplateColors: seq<string> := ["#ff0033", "#ffffff", "#111111", "#666666", "#2d7dff"]

  // ---------------------------------------------------------------------------
  // String.prototype.trim and toLowerCase

  /** The WhiteSpace and LineTerminator code points of ECMA-262, which `trim` removes. */
  predicate IsJsSpace(c: char) {
    || c == '\t' || c == '\n' || c == '\U{000B}' || c == '\U{000C}' || c == '\r'
    || c == ' ' || c == '\U{00A0}' || c == '\U{1680}'
    || ('\U{2000}' <= c <= '\U{200A}')
    || c == '\U{2028}' || c == '\U{2029}' || c == '\U{202F}' || c == '\U{205F}'
    || c == '\U{3000}' || c == '\U{FEFF}'
  }

  predicate AllSpace(s: string) {
    forall i :: 0 <= i < |s| ==> IsJsSpace(s[i])
  }

  /** `s` is empty or neither begins nor ends with white space. */
  predicate Trimmed(s: string) {
    s == [] || (!IsJsSpace(s[0]) && !IsJsSpace(s[|s| - 1]))
  }

  function TrimStart(s: string): (r: string)
    ensures |r| <= |s| && r == s[|s| - |r|..]
    ensures AllSpace(s[..|s| - |r|])
    ensures r == [] || !IsJsSpace(r[0])
  {
    if |s| > 0 && IsJsSpace(s[0]) then
      var r := TrimStart(s[1..]);
      assert s[..|s| - |r|] == [s[0]] + s[1..][..|s| - 1 - |r|];
      r
    else s
  }

  function TrimEnd(s: string): (r: string)
    ensures |r| <= |s| && r == s[..|r|]
    ensures AllSpace(s[|r|..])
    ensures r == [] || !IsJsSpace(r[|r| - 1])
  {
    if |s| > 0 && IsJsSpace(s[|s| - 1]) then
      var r := TrimEnd(s[..|s| - 1]);
      assert s[|r|..] == s[..|s| - 1][|r|..] + [s[|s| - 1]];
      r
    else s
  }

  /** `s.trim()`. */
  function Trim(s: string): (r: string)
    ensures Trimmed(r)
    ensures exists i, j :: 0 <= i <= j <= |s| && AllSpace(s[..i]) && AllSpace(s[j..]) && r == s[i..j]
  {
    var t := TrimStart(s);
    var r := TrimEnd(t);
    var i := |s| - |t|;
    var j := i + |r|;
    assert r == s[i..j] && AllSpace(s[j..]) by {
      assert t[|r|..] == s[j..];
    }
    assert AllSpace(s[..i]);
    r
  }

  /** Lower-casing of one code point, on the ASCII letters. */
  function LowerChar(c: char): (d: char)
    ensures 'A' <= c <= 'Z' ==> d as int == c as int + 32
    ensures !('A' <= c <= 'Z') ==> d == c
    ensures !('A' <= d <= 'Z')
  {
    if 'A' <= c <= 'Z' then (c as int + 32) as char else c
  }

  /**
   * `s.toLowerCase()`, on the ASCII letters only. No code point outside ASCII
   * lower-cases to `#` or to a hexadecimal digit, so whether the colour pattern
   * matches, and the string it returns when it does, are the same as with the
   * full Unicode mapping.
   */
  function ToLower(s: string): (r: string)
    ensures |r| == |s|
    ensures forall i :: 0 <= i < |s| ==> r[i] == LowerChar(s[i])
    ensures forall i :: 0 <= i < |r| ==> !('A' <= r[i] <= 'Z')
    ensures forall i :: 0 <= i < |s| && !('A' <= s[i] <= 'Z') ==> r[i] == s[i]
  {
    seq(|s|, i requires 0 <= i < |s| => LowerChar(s[i]))
  }

  // ---------------------------------------------------------------------------
  // normalizeColor

  predicate IsLowerHex(c: char) {
    ('0' <= c <= '9') || ('a' <= c <= 'f')
  }

  /** The strings the pattern `^#[0-9a-f]{6}$` accepts: the canonical colours. */
  predicate IsCanonicalColor(s: string) {
    && |s| == 7
    && s[0] == '#'
    && forall i :: 1 <= i < 7 ==> IsLowerHex(s[i])
  }

  /** Trim, lower-case, then test the pattern. */
  function ColorOfText(t: string): (r: Option<string>)
    ensures r.Some? ==> IsCanonicalColor(r.value)
  {
    var s := ToLower(Trim(t));
    if IsCanonicalColor(s) then Some(s) else None
  }

  /**
   * `normalizeColor(c)`: null for a falsy value; otherwise `String(c)` trimmed
   * and lower-cased when it is a canonical colour, null when not. `String(c)`
   * can only begin with `#` for a string or for an array of exactly one element
   * (whose string is that element's string); for a number, boolean, object or
   * an array of two or more elements (joined with commas) it cannot match.
   */
  function NormalizeColor(v: JsValue): (r: Option<string>)
    ensures r.Some? ==> IsCanonicalColor(r.value)
    ensures !Truthy(v) ==> r == None
  {
    if !Truthy(v) then None
    else
      match v
      case Str(s) => ColorOfText(s)
      case Arr(xs) => if |xs| == 1 then NormalizeColor(xs[0]) else None
      case _ => None
  }

  /** `NormalizeColor` gives null for the values whose `String()` throws. */
  lemma {:induction false} ThrowingGivesNull(v: JsValue)
    requires StringThrows(v)
    ensures NormalizeColor(v) == None
  {
    if v.Arr? && |v.items| == 1 {
      assert StringThrows(v.items[0]);
      ThrowingGivesNull(v.items[0]);
    }
  }

  /**
   * `normalizeColor(c)` with its exception: `String(c)` throws for the values
   * `StringThrows` names, all of which are truthy, so the falsy check never
   * stops them. Where it returns, the result is `NormalizeColor`'s.
   */
  function NormalizeColorOrThrow(v: JsValue): (r: Thrown<Option<string>>)
    ensures r.Threw? <==> StringThrows(v)
    ensures r.Returned? ==> r.value == NormalizeColor(v)
    ensures r.Returned? && r.value.Some? ==> v.Str? || v.Arr?
  {
    if !Truthy(v) then Returned(None)
    else if StringThrows(v) then Threw
    else Returned(NormalizeColor(v))
  }

  lemma {:induction false} TrimStartPadded(p: string, t: string)
    requires AllSpace(p)
    requires t == [] || !IsJsSpace(t[0])
    ensures TrimStart(p + t) == t
    decreases |p|
  {
    if p == [] {
      assert p + t == t;
    } else {
      assert (p + t)[1..] == p[1..] + t;
      TrimStartPadded(p[1..], t);
    }
  }

  lemma {:induction false} TrimEndPadded(t: string, q: string)
    requires AllSpace(q)
    requires t == [] || !IsJsSpace(t[|t| - 1])
    ensures TrimEnd(t + q) == t
    decreases |q|
  {
    if q == [] {
      assert t + q == t;
    } else {
      assert (t + q)[..|t + q| - 1] == t + q[..|q| - 1];
      TrimEndPadded(t, q[..|q| - 1]);
    }
  }

  /** Trimming removes exactly the white space around a trimmed core. */
  lemma TrimPadded(p: string, u: string, q: string)
    requires AllSpace(p) && AllSpace(q) && Trimmed(u)
    ensures Trim(p + u + q) == u
  {
    if u == [] {
      assert p + u + q == (p + q) + [];
      TrimStartPadded(p + q, []);
    } else {
      TrimStartPadded(p, u + q);
      assert p + u + q == p + (u + q);
      TrimEndPadded(u, q);
    }
  }

  lemma ToLowerCanonical(c: string)
    requires IsCanonicalColor(c)
    ensures ToLower(c) == c
  {
  }

  /** A canonical colour is accepted unchanged. */
  lemma CanonicalIsFixed(c: string)
    requires IsCanonicalColor(c)
    ensures NormalizeColor(Str(c)) == Some(c)
  {
    ColorOfCanonical(c);
    NormalizeOfText(c);
  }

  lemma ColorOfCanonical(c: string)
    requires IsCanonicalColor(c)
    ensures ColorOfText(c) == Some(c)
  {
    assert Trimmed(c) by {
      assert c[0] == '#' && IsLowerHex(c[6]);
    }
    TrimOfTrimmed(c);
    ToLowerCanonical(c);
  }

  lemma NormalizeOfText(s: string)
    requires s != []
    ensures NormalizeColor(Str(s)) == ColorOfText(s)
  {
    assert Truthy(Str(s));
  }

  lemma TrimOfTrimmed(u: string)
    requires Trimmed(u)
    ensures Trim(u) == u
  {
    assert TrimStart(u) == u;
    assert TrimEnd(u) == u;
  }

  /** `normalizeColor` is idempotent on its non-null results. */
  lemma NormalizeColorIdempotent(v: JsValue)
    requires NormalizeColor(v).Some?
    ensures NormalizeColor(Str(NormalizeColor(v).value)) == NormalizeColor(v)
  {
    CanonicalIsFixed(NormalizeColor(v).value);
  }

  /** `s` is the colour `c`, in any letter case, with white space around it. */
  ghost predicate PaddedColor(s: string, c: string) {
    exists i, j :: 0 <= i <= j <= |s| && AllSpace(s[..i]) && AllSpace(s[j..]) && ToLower(s[i..j]) == c
  }

  lemma AcceptedIsPadded(s: string, c: string)
    requires NormalizeColor(Str(s)) == Some(c)
    ensures IsCanonicalColor(c) && PaddedColor(s, c)
  {
    var t := Trim(s);
    var i, j :| 0 <= i <= j <= |s| && AllSpace(s[..i]) && AllSpace(s[j..]) && t == s[i..j];
    assert ToLower(s[i..j]) == c;
  }

  lemma LowerCoreIsTrimmed(u: string, c: string)
    requires IsCanonicalColor(c) && ToLower(u) == c
    ensures Trimmed(u) && |u| == 7
  {
    assert LowerChar(u[0]) == c[0];
    assert LowerChar(u[6]) == c[6];
  }

  lemma PaddedIsAcceptedAt(s: string, c: string, i: nat, j: nat)
    requires IsCanonicalColor(c)
    requires i <= j <= |s| && AllSpace(s[..i]) && AllSpace(s[j..]) && ToLower(s[i..j]) == c
    ensures NormalizeColor(Str(s)) == Some(c)
  {
    var u := s[i..j];
    LowerCoreIsTrimmed(u, c);
    assert s == s[..i] + u + s[j..];
    TrimPadded(s[..i], u, s[j..]);
    assert Trim(s) == u;
    assert s != [];
  }

  lemma PaddedIsAccepted(s: string, c: string)
    requires IsCanonicalColor(c) && PaddedColor(s, c)
    ensures NormalizeColor(Str(s)) == Some(c)
  {
    var i, j :| 0 <= i <= j <= |s| && AllSpace(s[..i]) && AllSpace(s[j..]) && ToLower(s[i..j]) == c;
    PaddedIsAcceptedAt(s, c, i, j);
  }

  /**
   * A string normalises to `c` exactly when it is `c`, with any of its hex
   * letters in either case, surrounded by any white space.
   */
  lemma NormalizeColorOfString(s: string, c: string)
    ensures NormalizeColor(Str(s)) == Some(c) <==> IsCanonicalColor(c) && PaddedColor(s, c)
  {
    if NormalizeColor(Str(s)) == Some(c) {
      AcceptedIsPadded(s, c);
    }
    if IsCanonicalColor(c) && PaddedColor(s, c) {
      PaddedIsAccepted(s, c);
    }
  }

  // ---------------------------------------------------------------------------
  // ensureHistoryArray

  /** `arr.map(normalizeColor).filter((c) => !!c)`. */
  function ValidColors(xs: seq<JsValue>): (r: seq<string>)
    ensures |r| <= |xs|
    ensures forall k :: 0 <= k < |r| ==> IsCanonicalColor(r[k])
  {
    if xs == [] then []
    else
      match NormalizeColor(xs[0])
      case Some(c) => [c] + ValidColors(xs[1..])
      case None => ValidColors(xs[1..])
  }

  /** The filtered list is empty exactly when no entry is a colour. */
  lemma {:induction false} ValidColorsEmpty(xs: seq<JsValue>)
    ensures ValidColors(xs) == [] <==> forall i :: 0 <= i < |xs| ==> NormalizeColor(xs[i]).None?
    decreases |xs|
  {
    if xs != [] {
      ValidColorsEmpty(xs[1..]);
      assert forall i :: 1 <= i < |xs| ==> xs[i] == xs[1..][i - 1];
    }
  }

  /** The valid entries keep their original order: filtering distributes over concatenation. */
  lemma {:induction false} ValidColorsAppend(xs: seq<JsValue>, ys: seq<JsValue>)
    ensures ValidColors(xs + ys) == ValidColors(xs) + ValidColors(ys)
    decreases |xs|
  {
    if xs == [] {
      assert xs + ys == ys;
    } else {
      assert (xs + ys)[0] == xs[0];
      assert (xs + ys)[1..] == xs[1..] + ys;
      ValidColorsAppend(xs[1..], ys);
    }
  }

  /** `ensureHistoryArray(arr)`. */
  function EnsureHistoryArray(v: JsValue): (r: seq<string>)
    ensures r != []
    ensures forall k :: 0 <= k < |r| ==> IsCanonicalColor(r[k])
    ensures !v.Arr? ==> r == TemplateColors
    ensures v.Arr? && (forall i :: 0 <= i < |v.items| ==> NormalizeColor(v.items[i]).None?) ==> r == TemplateColors
    ensures v.Arr? && (exists i :: 0 <= i < |v.items| && NormalizeColor(v.items[i]).Some?) ==> r == ValidColors(v.items)
  {
    if !v.Arr? then TemplateColors
    else
      ValidColorsEmpty(v.items);
      var normalized := ValidColors(v.items);
      if normalized == [] then TemplateColors else normalized
  }

  /**
   * `ensureHistoryArray(arr)` with its exception: `map` calls `normalizeColor`
   * on every entry, so the call throws exactly when `arr` is an array holding
   * an entry whose `String()` throws.
   */
  function EnsureHistoryArrayOrThrow(v: JsValue): (r: Thrown<seq<string>>)
    ensures r.Threw? <==> v.Arr? && exists i :: 0 <= i < |v.items| && NormalizeColorOrThrow(v.items[i]).Threw?
    ensures r.Returned? ==> r.value == EnsureHistoryArray(v)
  {
    if v.Arr? && StringThrows(v) then Threw else Returned(EnsureHistoryArray(v))
  }

  /** A list of strings stored as a JSON array never makes the history conversion throw. */
  lemma StoredHistoryNeverThrows(h: seq<string>)
    ensures EnsureHistoryArrayOrThrow(StrArray(h)).Returned?
  {
    var xs := StrArray(h).items;
    forall i | 0 <= i < |xs| ensures !StringThrows(xs[i]) {
      assert xs[i] == Str(h[i]);
    }
  }

  lemma HeadTail<T>(h: seq<T>)
    requires h != []
    ensures h == [h[0]] + h[1..]
  {
  }

  lemma TailIndex<T>(h: seq<T>, k: int)
    requires 0 <= k < |h| - 1
    ensures h[1..][k] == h[k + 1]
  {
  }

  /** Values that each normalise to a colour pass the filter as those colours, in order. */
  lemma {:induction false} ValidColorsAllSome(xs: seq<JsValue>, h: seq<string>)
    requires |xs| == |h|
    requires forall k :: 0 <= k < |h| ==> NormalizeColor(xs[k]) == Some(h[k])
    ensures ValidColors(xs) == h
    decreases |h|
  {
    if h != [] {
      assert ValidColors(xs) == [h[0]] + ValidColors(xs[1..]);
      forall k | 0 <= k < |h[1..]| ensures NormalizeColor(xs[1..][k]) == Some(h[1..][k]) {
        TailIndex(xs, k);
        TailIndex(h, k);
      }
      ValidColorsAllSome(xs[1..], h[1..]);
      HeadTail(h);
    }
  }

  /** A list of canonical colours stored as a JSON array reads back as itself. */
  lemma ValidColorsOfStored(h: seq<string>)
    requires forall k :: 0 <= k < |h| ==> IsCanonicalColor(h[k])
    ensures ValidColors(StrArray(h).items) == h
  {
    var xs := StrArray(h).items;
    forall k | 0 <= k < |h| ensures NormalizeColor(xs[k]) == Some(h[k]) {
      CanonicalIsFixed(h[k]);
    }
    ValidColorsAllSome(xs, h);
  }

  lemma EnsureHistoryOfStored(h: seq<string>)
    requires h != []
    requires forall k :: 0 <= k < |h| ==> IsCanonicalColor(h[k])
    ensures EnsureHistoryArray(StrArray(h)) == h
  {
    ValidColorsOfStored(h);
  }

  // ---------------------------------------------------------------------------
  // pushColorFifo

  /** `h.indexOf(c)`: the first position of `c`, or -1. */
  function IndexOf(h: seq<string>, c: string): (i: int)
    ensures -1 <= i < |h|
    ensures i == -1 <==> c !in h
    ensures 0 <= i ==> h[i] == c && c !in h[..i]
  {
    if h == [] then -1
    else if h[0] == c then 0
    else
      var k := IndexOf(h[1..], c);
      if k == -1 then -1
      else
        assert h[..k + 1] == [h[0]] + h[1..][..k];
        k + 1
  }

  /** `idx = h.indexOf(c); if (idx !== -1) h.splice(idx, 1)`: drop the first `c`, keep the rest in order. */
  function RemoveFirst(h: seq<string>, c: string): (r: seq<string>)
    ensures c !in h ==> r == h
    ensures c in h ==> |r| == |h| - 1
    ensures c in h ==> forall k :: 0 <= k < |r| ==> r[k] == if k < IndexOf(h, c) then h[k] else h[k + 1]
  {
    var i := IndexOf(h, c);
    if i == -1 then h else h[..i] + h[i + 1..]
  }

  /** The last `n` entries of `h` (all of them when there are no more than `n`). */
  function Newest(h: seq<string>, n: nat): (r: seq<string>)
    ensures |r| == if |h| <= n then |h| else n
    ensures r == h[|h| - |r|..]
  {
    if |h| <= n then h else h[|h| - n..]
  }

  predicate NoDuplicates(h: seq<string>) {
    forall i, j :: 0 <= i < j < |h| ==> h[i] != h[j]
  }

  lemma RemoveFirstWithin(h: seq<string>, c: string)
    ensures forall x :: x in RemoveFirst(h, c) ==> x in h
  {
    if c in h {
      RemoveFirstMultiset(h, c);
      forall x | x in RemoveFirst(h, c) ensures x in h {
        assert x in multiset(RemoveFirst(h, c));
      }
    }
  }

  lemma NewestWithin(h: seq<string>, n: nat)
    ensures forall x :: x in Newest(h, n) ==> x in h
  {
    assert h == h[..|h| - |Newest(h, n)|] + Newest(h, n);
  }

  /** The history after moving or appending the canonical colour `c` to its newest end. */
  function PushedHistory(h: seq<string>, c: string): (r: seq<string>)
    ensures r != [] && r[|r| - 1] == c
    ensures |r| <= MaxHistory
    ensures forall x :: x in r ==> x == c || x in h
  {
    RemoveFirstWithin(h, c);
    NewestWithin(RemoveFirst(h, c) + [c], MaxHistory);
    Newest(RemoveFirst(h, c) + [c], MaxHistory)
  }

  lemma RemoveFirstDistinct(h: seq<string>, c: string)
    requires NoDuplicates(h)
    ensures NoDuplicates(RemoveFirst(h, c)) && c !in RemoveFirst(h, c)
  {
    var rest := RemoveFirst(h, c);
    if c in h {
      var i := IndexOf(h, c);
      forall a, b | 0 <= a < b < |rest| ensures rest[a] != rest[b] {
        var a' := if a < i then a else a + 1;
        var b' := if b < i then b else b + 1;
        assert rest[a] == h[a'] && rest[b] == h[b'];
      }
      forall k | 0 <= k < |rest| ensures rest[k] != c {
        var k' := if k < i then k else k + 1;
        assert rest[k] == h[k'];
      }
    }
  }

  lemma SuffixDistinct(base: seq<string>, n: nat)
    requires NoDuplicates(base)
    ensures NoDuplicates(Newest(base, n))
  {
    var r := Newest(base, n);
    forall a, b | 0 <= a < b < |r| ensures r[a] != r[b] {
      assert r[a] == base[|base| - |r| + a] && r[b] == base[|base| - |r| + b];
    }
  }

  /** Pushing onto a list without repeats gives a list without repeats, holding `c` once. */
  lemma PushKeepsDistinct(h: seq<string>, c: string)
    requires NoDuplicates(h)
    ensures NoDuplicates(PushedHistory(h, c))
    ensures multiset(PushedHistory(h, c))[c] == 1
  {
    var rest := RemoveFirst(h, c);
    RemoveFirstDistinct(h, c);
    var base := rest + [c];
    assert NoDuplicates(base) by {
      forall a, b | 0 <= a < b < |base| ensures base[a] != base[b] {
        if b == |rest| {
          assert base[a] == rest[a];
        }
      }
    }
    SuffixDistinct(base, MaxHistory);
    var r := PushedHistory(h, c);
    assert r[|r| - 1] == c;
    assert multiset(r)[c] == 1 by {
      var m := multiset(r[..|r| - 1]);
      assert r == r[..|r| - 1] + [c];
      assert c !in r[..|r| - 1] by {
        forall k | 0 <= k < |r| - 1 ensures r[k] != c {
          assert r[k] != r[|r| - 1];
        }
      }
    }
  }

  lemma RemoveFirstMultiset(h: seq<string>, c: string)
    requires c in h
    ensures multiset(RemoveFirst(h, c)) + multiset{c} == multiset(h)
  {
    var i := IndexOf(h, c);
    assert h == h[..i] + [c] + h[i + 1..];
    assert RemoveFirst(h, c) == h[..i] + h[i + 1..];
  }

  /** Picking a colour already in a short history moves it to the newest end: nothing is lost. */
  lemma PushExistingIsMove(h: seq<string>, c: string)
    requires c in h && |h| <= MaxHistory
    ensures |PushedHistory(h, c)| == |h|
    ensures multiset(PushedHistory(h, c)) == multiset(h)
  {
    var base := RemoveFirst(h, c) + [c];
    RemoveFirstMultiset(h, c);
    assert PushedHistory(h, c) == base;
  }

  /** The pushed history is the newest end of the history with `c` moved or appended. */
  lemma PushedIsSuffix(h: seq<string>, c: string)
    ensures var rest := RemoveFirst(h, c);
            var r := PushedHistory(h, c);
            r == (rest + [c])[|rest| + 1 - |r|..]
  {
  }

  /** `while (next.length > cap) next.shift()`. */
  method ShiftToCapacity(h: seq<string>, cap: nat) returns (next: seq<string>)
    ensures next == Newest(h, cap)
  {
    next := h;
    while |next| > cap
      invariant next == h[|h| - |next|..]
      invariant |h| > cap ==> |next| >= cap
      invariant |h| <= cap ==> next == h
      decreases |next|
    {
      next := next[1..];
    }
  }

  /** The body of `pushColorFifo` once the colour is known to be the canonical `c`. */
  method MoveToNewest(history: seq<string>, c: string) returns (next: seq<string>)
    ensures next == PushedHistory(history, c)
    ensures |next| <= MaxHistory && next[|next| - 1] == c
    ensures next == (RemoveFirst(history, c) + [c])[|RemoveFirst(history, c)| + 1 - |next|..]
  {
    next := history;
    var idx := IndexOf(next, c);
    if idx != -1 {
      next := next[..idx] + next[idx + 1..];
    }
    next := next + [c];
    next := ShiftToCapacity(next, MaxHistory);
    PushedIsSuffix(history, c);
  }

  /** A string, or `null` for `None`. */
  function StrOrNull(c: Option<string>): (v: JsValue)
    ensures !StringThrows(v)
  {
    if c.Some? then Str(c.value) else Null
  }

  /**
   * `pushColorFifo(history, color)`: returns a new list; `history` itself is a
   * value and is never altered. Every caller passes a string or `null`: the
   * draft's colour (options.js:271, 286) or a `normalizeColor` result
   * (options.js:837-843, 860-866), so `String(color)` cannot throw.
   */
  method PushColorFifo(history: seq<string>, color: Option<string>) returns (next: seq<string>)
    ensures NormalizeColor(StrOrNull(color)).None? ==> next == history
    ensures NormalizeColor(StrOrNull(color)).Some? ==> next == PushedHistory(history, NormalizeColor(StrOrNull(color)).value)
    ensures NormalizeColor(StrOrNull(color)).Some? ==>
      var c := NormalizeColor(StrOrNull(color)).value;
      && |next| <= MaxHistory
      && next[|next| - 1] == c
      && next == (RemoveFirst(history, c) + [c])[|RemoveFirst(history, c)| + 1 - |next|..]
  {
    var c := NormalizeColor(StrOrNull(color));
    if c.None? {
      return history;
    }
    next := MoveToNewest(history, c.value);
  }
}
