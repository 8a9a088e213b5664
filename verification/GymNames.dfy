/** Gym names: surrounding white space is dropped, and what is left must be neither empty nor too long. */
module GymNames {
  import opened Common

  const MAX_NAME := 100

  /** Unicode's White_Space property, which the trimming uses. */
  predicate IsSpace(c: char) {
    c in {'\t', '\n', '\U{0B}', '\U{0C}', '\r', ' ', '\U{85}', '\U{A0}', '\U{1680}', '\U{2028}', '\U{2029}', '\U{202F}',
          '\U{205F}', '\U{3000}'}
    || '\U{2000}' <= c <= '\U{200A}'
  }

  /** White space by code point. */
  lemma SpacesByNumber(c: char)
    ensures IsSpace(c) <==> var n := c as int;
              9 <= n <= 13 || n in {32, 133, 160, 5760} || 8192 <= n <= 8202 || n in {8232, 8233, 8239, 8287, 12288}
  {
  }

  function TrimLeft(s: string): string {
    if s != "" && IsSpace(s[0]) then TrimLeft(s[1..]) else s
  }

  function TrimRight(s: string): string {
    if s != "" && IsSpace(s[|s| - 1]) then TrimRight(s[..|s| - 1]) else s
  }

  /** None: not a name. */
  function ValidName(raw: string): Option<string> {
    var name := TrimRight(TrimLeft(raw));
    if 0 < |name| <= MAX_NAME then Some(name) else None
  }

  lemma {:induction false} TrimRightStops(s: string)
    ensures var t := TrimRight(s);
            t <= s && (t == "" || !IsSpace(t[|t| - 1])) && forall i :: |t| <= i < |s| ==> IsSpace(s[i])
    decreases |s|
  {
    if s != "" && IsSpace(s[|s| - 1]) {
      TrimRightStops(s[..|s| - 1]);
    }
  }

  lemma {:induction false} TrimLeftStops(s: string)
    ensures var t := TrimLeft(s);
            && |t| <= |s| && t == s[|s| - |t|..] && (t == "" || !IsSpace(t[0]))
            && forall i :: 0 <= i < |s| - |t| ==> IsSpace(s[i])
    decreases |s|
  {
    if s != "" && IsSpace(s[0]) {
      TrimLeftStops(s[1..]);
      var t := TrimLeft(s);
      assert forall i :: 0 < i < |s| - |t| ==> s[i] == s[1..][i - 1];
    }
  }

  /** name stands at place k of raw, with nothing but white space around it. */
  predicate IsMiddle(raw: string, name: string, k: nat) {
    && k + |name| <= |raw| && raw[k..k + |name|] == name
    && (forall i :: 0 <= i < k ==> IsSpace(raw[i])) && (forall i :: k + |name| <= i < |raw| ==> IsSpace(raw[i]))
  }

  /** Neither empty nor too long, and no white space at either end. */
  predicate IsName(name: string) {
    0 < |name| <= 100 && !IsSpace(name[0]) && !IsSpace(name[|name| - 1])
  }

  /**
   A name is accepted exactly when it is what the request holds between its first and its last character
   that is not white space, and as exactly that.
   */
  lemma ValidNameIsTheMiddle(raw: string, name: string)
    ensures ValidName(raw) == Some(name) <==> IsName(name) && exists k :: IsMiddle(raw, name, k)
  {
    var t := TrimLeft(raw);
    var trimmed, k := TrimRight(t), |raw| - |t|;
    TrimLeftStops(raw);
    TrimRightStops(t);
    assert t[..|trimmed|] == trimmed && raw[k..][..|trimmed|] == raw[k..k + |trimmed|];
    forall i | k + |trimmed| <= i < |raw|
      ensures IsSpace(raw[i])
    {
      assert raw[i] == t[i - k];
    }
    assert IsMiddle(raw, trimmed, k);
    if j :| IsName(name) && IsMiddle(raw, name, j) {
      MiddlesAgree(raw, name, j, trimmed, k);
    }
  }

  /** There is only one such part. */
  lemma MiddlesAgree(raw: string, a: string, j: nat, b: string, k: nat)
    requires IsName(a) && IsMiddle(raw, a, j) && IsMiddle(raw, b, k)
    requires b == "" || (!IsSpace(b[0]) && !IsSpace(b[|b| - 1]))
    ensures a == b
  {
    assert raw[j] == a[0] && raw[j + |a| - 1] == a[|a| - 1];
    if b != "" {
      assert raw[k] == b[0] && raw[k + |b| - 1] == b[|b| - 1];
    }
  }
}
