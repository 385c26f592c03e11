/** Strings as the services normalise and compare them. */
module Text {

  predicate IsSpace(c: char) {
    c == ' ' || '\t' <= c <= '\r' || '\U{001C}' <= c <= '\U{001F}'
  }

  function TrimLeft(s: string): (r: string)
    ensures r == "" || !IsSpace(r[0])
    ensures |r| <= |s| && r == s[|s| - |r|..] && forall k :: 0 <= k < |s| - |r| ==> IsSpace(s[k])
  {
    if s != "" && IsSpace(s[0]) then TrimLeft(s[1..]) else s
  }

  function TrimRight(s: string): (r: string)
    ensures r == "" || !IsSpace(r[|r| - 1])
    ensures |r| <= |s| && r == s[..|r|] && forall k :: |r| <= k < |s| ==> IsSpace(s[k])
  {
    if s != "" && IsSpace(s[|s| - 1]) then TrimRight(s[..|s| - 1]) else s
  }

  function Trim(s: string): string {
    TrimRight(TrimLeft(s))
  }

  function LowerChar(c: char): char {
    if 'A' <= c <= 'Z' then c - 'A' + 'a' else c
  }

  function Lower(s: string): string {
    seq(|s|, i requires 0 <= i < |s| => LowerChar(s[i]))
  }

  lemma TrimTwice(s: string)
    ensures Trim(Trim(s)) == Trim(s)
  {
    var t := TrimLeft(s);
    var r := TrimRight(t);
    if r != "" {
      assert r[0] == t[0];
      assert TrimLeft(r) == r && TrimRight(r) == r;
    }
  }

  lemma TrimKeeps(s: string)
    requires s != "" && !IsSpace(s[0]) && !IsSpace(s[|s| - 1])
    ensures Trim(s) == s
  {
  }

  lemma TrimPadded(s: string)
    requires s != "" && !IsSpace(s[0]) && !IsSpace(s[|s| - 1])
    ensures Trim(" " + s) == s
  {
    assert (" " + s)[1..] == s;
    TrimKeeps(s);
  }

  function Digit(n: nat): char
    requires n < 10
  {
    '0' + n as char
  }

  /** The number a text of decimal digits stands for. */
  function Number(s: string): nat {
    if s == "" then 0
    else Number(s[..|s| - 1]) * 10 + (if '0' <= s[|s| - 1] <= '9' then (s[|s| - 1] - '0') as int else 0)
  }

  /** Byte order of two texts, as the database and `sorted` compare them. */
  predicate TextLe(a: string, b: string) {
    if a == "" then true
    else if b == "" then false
    else if a[0] != b[0] then a[0] < b[0]
    else TextLe(a[1..], b[1..])
  }

  predicate TextLt(a: string, b: string) {
    a != b && TextLe(a, b)
  }

  lemma {:induction false} TextOrder(a: string, b: string, c: string)
    ensures TextLe(a, a)
    ensures TextLe(a, b) || TextLe(b, a)
    ensures TextLe(a, b) && TextLe(b, a) ==> a == b
    ensures TextLe(a, b) && TextLe(b, c) ==> TextLe(a, c)
  {
    if a != "" {
      TextOrder(a[1..], if b == "" then "" else b[1..], if c == "" then "" else c[1..]);
      assert a == [a[0]] + a[1..];
      if b != "" { assert b == [b[0]] + b[1..]; }
    }
  }
}
