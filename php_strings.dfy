/** The PHP string built-ins the core relies on: trim() with its default
    character list, strtolower() (ASCII only, as in PHP 8) and the
    truthiness of a string in a boolean context. */
module PhpStrings {

  /** The characters trim() strips when given no list: space, tab, line feed,
      carriage return, NUL and vertical tab. */
  predicate IsTrimChar(c: char)
  {
    c == ' ' || c == '\t' || c == '\n' || c == '\r' || c == '\0' || c == 11 as char
  }

  /** A string made only of characters trim() strips. */
  predicate AllTrimChars(s: string)
  {
    forall k :: 0 <= k < |s| ==> IsTrimChar(s[k])
  }

  /** ltrim(): the string without its leading run of trim characters. */
  function TrimLeft(s: string): (r: string)
    ensures |r| <= |s|
  {
    if |s| > 0 && IsTrimChar(s[0]) then TrimLeft(s[1..]) else s
  }

  /** ltrim() removes a prefix made only of trim characters and stops at the
      first other character. */
  lemma {:induction false} TrimLeftSpec(s: string)
    ensures var r := TrimLeft(s);
      && r == s[|s| - |r|..]
      && (forall k :: 0 <= k < |s| - |r| ==> IsTrimChar(s[k]))
      && (r == [] || !IsTrimChar(r[0]))
  {
    if |s| > 0 && IsTrimChar(s[0]) {
      TrimLeftSpec(s[1..]);
      var r := TrimLeft(s);
      assert r == TrimLeft(s[1..]);
      forall k | 0 <= k < |s| - |r| ensures IsTrimChar(s[k]) {
        if k > 0 {
          assert s[k] == s[1..][k - 1];
        }
      }
    }
  }

  /** rtrim(): the string without its trailing run of trim characters. */
  function TrimRight(s: string): (r: string)
    ensures |r| <= |s|
  {
    if |s| > 0 && IsTrimChar(s[|s| - 1]) then
      TrimRight(s[..|s| - 1])
    else s
  }

  /** rtrim() removes a suffix made only of trim characters and stops at the
      last other character. */
  lemma {:induction false} TrimRightSpec(s: string)
    ensures var r := TrimRight(s);
      && r == s[..|r|]
      && (forall k :: |r| <= k < |s| ==> IsTrimChar(s[k]))
      && (r == [] || !IsTrimChar(r[|r| - 1]))
  {
    if |s| > 0 && IsTrimChar(s[|s| - 1]) {
      var init := s[..|s| - 1];
      TrimRightSpec(init);
      var r := TrimRight(s);
      assert r == TrimRight(init);
      forall k | |r| <= k < |s| ensures IsTrimChar(s[k]) {
        if k < |s| - 1 {
          assert s[k] == init[k];
        }
      }
    }
  }

  /** trim(): both runs removed. */
  function Trim(s: string): (r: string)
    ensures |r| <= |s|
  {
    TrimRight(TrimLeft(s))
  }

  /** What trim() promises: the result is empty exactly when the input holds
      nothing but trim characters, it neither starts nor ends with one, and a
      string without them is returned as it is. */
  lemma TrimSpec(s: string)
    ensures var r := Trim(s);
      && (r == [] <==> AllTrimChars(s))
      && (r == [] || (!IsTrimChar(r[0]) && !IsTrimChar(r[|r| - 1])))
      && ((forall k :: 0 <= k < |s| ==> !IsTrimChar(s[k])) ==> r == s)
  {
    var l := TrimLeft(s);
    var r := TrimRight(l);
    TrimLeftSpec(s);
    TrimRightSpec(l);
    var n := |s| - |l|;
    if r == [] {
      assert l == [];
      assert AllTrimChars(s);
    } else {
      assert r[0] == l[0];
      assert !AllTrimChars(s) by {
        assert s[n] == l[0];
      }
    }
    if forall k :: 0 <= k < |s| ==> !IsTrimChar(s[k]) {
      if |s| > 0 {
        assert !IsTrimChar(s[0]);
        assert !IsTrimChar(s[|s| - 1]);
      }
    }
  }

  /** Trimming twice is trimming once. */
  lemma TrimIdempotent(s: string)
    ensures Trim(Trim(s)) == Trim(s)
  {
    var t := Trim(s);
    TrimSpec(s);
    if t != [] {
      assert TrimLeft(t) == t;
      assert TrimRight(t) == t;
    }
  }

  /** ltrim() strips a prefix of trim characters and nothing after it. */
  lemma {:induction false} TrimLeftSkips(p: string, t: string)
    requires AllTrimChars(p)
    requires t == [] || !IsTrimChar(t[0])
    ensures TrimLeft(p + t) == t
  {
    if p == [] {
      assert p + t == t;
    } else {
      assert (p + t)[0] == p[0];
      assert (p + t)[1..] == p[1..] + t;
      TrimLeftSkips(p[1..], t);
    }
  }

  /** rtrim() strips a suffix of trim characters and nothing before it. */
  lemma {:induction false} TrimRightSkips(t: string, q: string)
    requires AllTrimChars(q)
    requires t == [] || !IsTrimChar(t[|t| - 1])
    ensures TrimRight(t + q) == t
  {
    if q == [] {
      assert t + q == t;
    } else {
      var s := t + q;
      assert s[|s| - 1] == q[|q| - 1];
      assert s[..|s| - 1] == t + q[..|q| - 1];
      TrimRightSkips(t, q[..|q| - 1]);
    }
  }

  /** trim() of a word padded on both sides with trim characters is the word. */
  lemma TrimPadded(p: string, w: string, q: string)
    requires AllTrimChars(p) && AllTrimChars(q)
    requires w != [] && !IsTrimChar(w[0]) && !IsTrimChar(w[|w| - 1])
    ensures Trim(p + w + q) == w
  {
    assert p + w + q == p + (w + q);
    assert (w + q)[0] == w[0];
    TrimLeftSkips(p, w + q);
    TrimRightSkips(w, q);
  }

  /** strtolower() on one character: only A to Z change. */
  function LowerChar(c: char): char
  {
    if 'A' <= c <= 'Z' then (c as int + 32) as char else c
  }

  /** strtolower(): every character lowered, length unchanged. */
  function ToLower(s: string): (r: string)
    ensures |r| == |s|
    ensures forall k :: 0 <= k < |s| ==> r[k] == LowerChar(s[k])
  {
    seq(|s|, k requires 0 <= k < |s| => LowerChar(s[k]))
  }

  /** A string PHP treats as false: the empty string and "0". */
  predicate Falsy(s: string)
  {
    s == "" || s == "0"
  }
}
