/** Values and string operations shared by every module of the honeypot model. */
module Common {

  datatype Option<+T> = None | Some(value: T)

  /** The outcome of an operation that may raise: `Err` carries the exception's name. */
  datatype Result<+T> = Ok(value: T) | Err(error: string)

  /** A JSON value, as the routes file and the request parameters deliver it. */
  datatype Value =
    | VNull
    | VBool(b: bool)
    | VInt(i: int)
    | VStr(s: string)
    | VList(items: seq<Value>)
    | VMap(fields: map<string, Value>)

  /** Python's truth test `bool(v)`. */
  predicate Truthy(v: Value)
  {
    match v
    case VNull => false
    case VBool(b) => b
    case VInt(i) => i != 0
    case VStr(s) => s != ""
    case VList(xs) => xs != []
    case VMap(m) => m != map[]
  }

  /** Python's substring test `t in s`; the empty string is in every string. */
  predicate Contains(s: string, t: string)
    decreases |s|
  {
    t <= s || (|s| > 0 && Contains(s[1..], t))
  }

  lemma ContainsTail(s: string, t: string)
    requires |s| > 0 && Contains(s[1..], t)
    ensures Contains(s, t)
  {
  }

  /** Python's `s.endswith(suffix)`. */
  predicate EndsWith(s: string, suffix: string)
  {
    |suffix| <= |s| && s[|s| - |suffix|..] == suffix
  }

  /** Python's `s.replace(t, v)`: every non-overlapping occurrence of `t`, scanned left to right. */
  function ReplaceAll(s: string, t: string, v: string): string
    decreases |s|
  {
    if t == [] then
      (if s == [] then v else v + [s[0]] + ReplaceAll(s[1..], t, v))
    else if t <= s then v + ReplaceAll(s[|t|..], t, v)
    else if s == [] then []
    else [s[0]] + ReplaceAll(s[1..], t, v)
  }

  /** A string that does not occur is not replaced. */
  lemma {:induction false} ReplaceAbsent(s: string, t: string, v: string)
    requires !Contains(s, t)
    ensures ReplaceAll(s, t, v) == s
    decreases |s|
  {
    if s != [] {
      ReplaceAbsent(s[1..], t, v);
    }
  }

  /** Replacing a string by itself changes nothing. */
  lemma {:induction false} ReplaceSelf(s: string, t: string)
    ensures ReplaceAll(s, t, t) == s
    decreases |s|
  {
    if t == [] {
      if s != [] { ReplaceSelf(s[1..], t); }
    } else if t <= s {
      ReplaceSelf(s[|t|..], t);
      assert t + s[|t|..] == s;
    } else if s != [] {
      ReplaceSelf(s[1..], t);
    }
  }

  /** When `t` occurs in `pre + t` only at its end, replacing it rewrites exactly that occurrence. */
  lemma {:induction false} ReplaceAtEnd(pre: string, t: string, v: string)
    requires t != []
    requires !Contains((pre + t)[..|pre + t| - 1], t)
    ensures ReplaceAll(pre + t, t, v) == pre + v
    decreases |pre|
  {
    var s := pre + t;
    var u := s[..|s| - 1];
    if pre == [] {
      assert s == t && t <= s;
      assert s[|t|..] == [];
    } else {
      assert !(t <= s);
      var rest := pre[1..];
      assert s[1..] == rest + t;
      var w := (rest + t)[..|rest + t| - 1];
      assert w == u[1..];
      assert !Contains(w, t) by {
        if Contains(w, t) {
          ContainsTail(u, t);
        }
      }
      ReplaceAtEnd(rest, t, v);
      assert ReplaceAll(s, t, v) == [s[0]] + ReplaceAll(s[1..], t, v);
      ConsRegroup(pre, v);
    }
  }

  /** Splitting off the head of a non-empty sequence and putting it back before a tail. */
  lemma ConsRegroup<T>(pre: seq<T>, tail: seq<T>)
    requires pre != []
    ensures [pre[0]] + (pre[1..] + tail) == pre + tail
  {
    assert [pre[0]] + pre[1..] == pre;
  }

  /** A string lacking the first character of `t` does not contain `t`. */
  lemma {:induction false} MissingHeadNotContained(s: string, t: string)
    requires t != [] && t[0] !in s
    ensures !Contains(s, t)
    decreases |s|
  {
    if s != [] {
      assert s[1..] == s[1..];
      MissingHeadNotContained(s[1..], t);
    }
  }

  /** A single occurrence of `t`, with the first character of `t` nowhere else, is the only
      thing replaced. */
  lemma {:induction false} ReplaceOnce(pre: string, t: string, post: string, v: string)
    requires t != [] && t[0] !in pre && t[0] !in post
    ensures ReplaceAll(pre + t + post, t, v) == pre + v + post
    decreases |pre|
  {
    var s := pre + t + post;
    if pre == [] {
      assert s == t + post && t <= s;
      assert s[|t|..] == post;
      MissingHeadNotContained(post, t);
      ReplaceAbsent(post, t, v);
      assert ReplaceAll(s, t, v) == v + ReplaceAll(post, t, v);
    } else {
      assert s[0] == pre[0] && s[0] != t[0];
      assert !(t <= s);
      var rest := pre[1..] + t + post;
      assert s[1..] == rest;
      assert ReplaceAll(s, t, v) == [s[0]] + ReplaceAll(rest, t, v);
      ReplaceOnce(pre[1..], t, post, v);
      ConsRegroup(pre, v + post);
      assert pre[1..] + v + post == pre[1..] + (v + post);
    }
  }

  /** A character found neither in the text nor in the replacement is not in the result. */
  lemma {:induction false} ReplaceKeepsAbsent(s: string, t: string, v: string, c: char)
    requires c !in s && c !in v
    ensures c !in ReplaceAll(s, t, v)
    decreases |s|
  {
    if s == [] {
    } else if t == [] || !(t <= s) {
      ReplaceKeepsAbsent(s[1..], t, v, c);
    } else {
      ReplaceKeepsAbsent(s[|t|..], t, v, c);
    }
  }

  predicate IsDigit(c: char)
  {
    '0' <= c <= '9'
  }

  function DigitChar(d: nat): (c: char)
    requires d < 10
    ensures IsDigit(c) && (c as int) - ('0' as int) == d
  {
    (('0' as int) + d) as char
  }

  function DigitValue(c: char): (d: nat)
    requires IsDigit(c)
    ensures d < 10 && DigitChar(d) == c
  {
    (c as int) - ('0' as int)
  }

  /** Python's `str(n)` for a natural number. */
  function NatToString(n: nat): (r: string)
    ensures |r| > 0
    ensures forall i :: 0 <= i < |r| ==> IsDigit(r[i])
    decreases n
  {
    if n < 10 then [DigitChar(n)] else NatToString(n / 10) + [DigitChar(n % 10)]
  }

  /** Python's `str(i)` for an integer. */
  function IntToString(i: int): string
  {
    if i < 0 then "-" + NatToString(-i) else NatToString(i)
  }

  /** The value of a non-empty run of decimal digits. */
  function DigitsValue(s: string): nat
    requires forall i :: 0 <= i < |s| ==> IsDigit(s[i])
    decreases |s|
  {
    if s == [] then 0 else DigitsValue(s[..|s| - 1]) * 10 + DigitValue(s[|s| - 1])
  }

  /** Python's `int(s)` restricted to plain decimal digits; anything else raises (`None`). */
  function ParseNat(s: string): (r: Option<nat>)
    ensures r.Some? <==> |s| > 0 && forall i :: 0 <= i < |s| ==> IsDigit(s[i])
  {
    if |s| > 0 && forall i :: 0 <= i < |s| ==> IsDigit(s[i]) then Some(DigitsValue(s)) else None
  }

  /** Python's `int(s)` for an optional minus sign followed by decimal digits. */
  function ParseInt(s: string): Option<int>
  {
    if |s| > 0 && s[0] == '-' then
      match ParseNat(s[1..])
      case Some(n) => Some(-(n as int))
      case None => None
    else
      match ParseNat(s)
      case Some(n) => Some(n)
      case None => None
  }

  /** Reading back the decimal form of a number gives the number: the lock file written by the
      video action is read back by the cleanup routine as the same process id. */
  lemma {:induction false} ParseNatRoundTrip(n: nat)
    ensures ParseNat(NatToString(n)) == Some(n)
    decreases n
  {
    var s := NatToString(n);
    if n >= 10 {
      ParseNatRoundTrip(n / 10);
      assert s[..|s| - 1] == NatToString(n / 10);
      assert DigitValue(s[|s| - 1]) == n % 10;
      assert DigitsValue(s) == (n / 10) * 10 + n % 10;
    } else {
      assert DigitsValue(s) == DigitsValue([]) * 10 + DigitValue(s[0]);
    }
  }
}
