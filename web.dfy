/** Browser-side state shared by every view of the dashboard, and the few
    JavaScript value rules (truthiness, `||`, `String.prototype.trim`) that
    the views' decisions depend on. */
module Web {

  datatype Option<T> = None | Some(value: T)

  /** JavaScript truthiness of a value that is a string, `null` or `undefined`:
      only a non-empty string is truthy. */
  predicate Truthy(s: Option<string>) {
    s.Some? && s.value != ""
  }

  /** The expression `s || fallback` where `fallback` is a string literal. */
  function OrElse(s: Option<string>, fallback: string): string {
    if Truthy(s) then s.value else fallback
  }

  /** `localStorage.getItem(key)`: `null` when nothing is stored under `key`. */
  function GetItem(storage: map<string, string>, key: string): Option<string> {
    if key in storage then Some(storage[key]) else None
  }

  /** The characters `trim` removes: ECMAScript WhiteSpace and LineTerminator. */
  predicate IsJsSpace(c: char) {
    c == ' ' || c == '\t' || c == '\n' || c == '\r' || c == '\U{B}' || c == '\U{C}'
    || c == '\U{A0}' || c == '\U{1680}' || ('\U{2000}' <= c <= '\U{200A}')
    || c == '\U{2028}' || c == '\U{2029}' || c == '\U{202F}' || c == '\U{205F}'
    || c == '\U{3000}' || c == '\U{FEFF}'
  }

  predicate Blank(s: string) {
    forall i :: 0 <= i < |s| ==> IsJsSpace(s[i])
  }

  /** Drops leading spaces: the result is a suffix of `s`, everything cut off is
      space, and the result does not start with a space. */
  function TrimStart(s: string): (r: string)
    ensures |r| <= |s| && r == s[|s| - |r|..]
    ensures Blank(s[..|s| - |r|])
    ensures r != [] ==> !IsJsSpace(r[0])
  {
    if s != [] && IsJsSpace(s[0]) then
      var t := TrimStart(s[1..]);
      assert s[..|s| - |t|] == [s[0]] + s[1..][..|s| - 1 - |t|];
      t
    else
      s
  }

  /** Drops trailing spaces: the result is a prefix of `s`, everything cut off is
      space, and the result does not end with a space. */
  function TrimEnd(s: string): (r: string)
    ensures |r| <= |s| && r == s[..|r|]
    ensures Blank(s[|r|..])
    ensures r != [] ==> !IsJsSpace(r[|r| - 1])
  {
    if s != [] && IsJsSpace(s[|s| - 1]) then
      var t := TrimEnd(s[..|s| - 1]);
      assert s[|t|..] == s[..|s| - 1][|t|..] + [s[|s| - 1]];
      t
    else
      s
  }

  /** `s.trim()`: a contiguous piece of `s` that is empty exactly when `s` holds
      nothing but spaces, and otherwise starts and ends with a non-space. */
  function Trim(s: string): (r: string)
    ensures |r| <= |s|
    ensures r == "" <==> Blank(s)
    ensures r != "" ==> !IsJsSpace(r[0]) && !IsJsSpace(r[|r| - 1])
    ensures exists i :: TrimmedAt(s, i, r)
  {
    var t := TrimStart(s);
    var r := TrimEnd(t);
    TrimEmptyIffBlank(s);
    CutBothEnds(s, t, r);
    r
  }

  lemma TrimEmptyIffBlank(s: string)
    ensures TrimEnd(TrimStart(s)) == "" <==> Blank(s)
    ensures TrimEnd(TrimStart(s)) != "" ==> !IsJsSpace(TrimEnd(TrimStart(s))[0])
  {
    var t := TrimStart(s);
    var r := TrimEnd(t);
    var k := |s| - |t|;
    if r == "" {
      assert t[|r|..] == t;
      assert t == "";
      assert s[..k] == s;
    } else {
      assert t != "" && r[0] == t[0];
      assert s[k] == t[0];
    }
  }

  /** `r` is the piece of `s` starting at `i`, and everything before and after
      that piece is space. */
  predicate TrimmedAt(s: string, i: int, r: string) {
    0 <= i <= |s| - |r| && r == s[i..i + |r|] && Blank(s[..i]) && Blank(s[i + |r|..])
  }

  /** Cutting a run of spaces from the front and then from the back leaves a
      piece of the input with only spaces around it. */
  lemma CutBothEnds(s: string, t: string, r: string)
    requires |t| <= |s| && t == s[|s| - |t|..] && Blank(s[..|s| - |t|])
    requires |r| <= |t| && r == t[..|r|] && Blank(t[|r|..])
    ensures TrimmedAt(s, |s| - |t|, r)
  {
    var k := |s| - |t|;
    SuffixSlices(s, k, |r|);
    BlankEqual(t[|r|..], s[k + |r|..]);
  }

  /** Slicing a suffix of `s` is slicing `s` itself further along. */
  lemma SuffixSlices(s: string, k: nat, j: nat)
    requires k + j <= |s|
    ensures s[k..][..j] == s[k..k + j]
    ensures s[k..][j..] == s[k + j..]
  {
  }

  lemma BlankEqual(a: string, b: string)
    requires Blank(a) && a == b
    ensures Blank(b)
  {
  }

  datatype Level = Success | Error

  /** One `message.success` / `message.error` notification. */
  datatype Toast = Toast(level: Level, text: string)

  /** The page's window: `localStorage`, the toast sink, `window.location`, and
      the router navigations a `setTimeout` has queued. */
  class Browser {
    var storage: map<string, string>
    var toasts: seq<Toast>
    var location: string
    var scheduled: seq<string>

    constructor (storage: map<string, string>, location: string)
      ensures this.storage == storage && this.location == location
      ensures toasts == [] && scheduled == []
    {
      this.storage := storage;
      this.location := location;
      toasts := [];
      scheduled := [];
    }

    /** `localStorage.setItem(key, value)`. */
    method SetItem(key: string, value: string)
      modifies this`storage
      ensures storage == old(storage)[key := value]
    {
      storage := storage[key := value];
    }

    /** Raises one toast. */
    method Notify(level: Level, text: string)
      modifies this`toasts
      ensures toasts == old(toasts) + [Toast(level, text)]
    {
      toasts := toasts + [Toast(level, text)];
    }

    /** `setTimeout(() => navigate(route), ...)`: queues a router navigation. */
    method ScheduleNavigation(route: string)
      modifies this`scheduled
      ensures scheduled == old(scheduled) + [route]
    {
      scheduled := scheduled + [route];
    }
  }
}
