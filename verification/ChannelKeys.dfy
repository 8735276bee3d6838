/** The keys under which channel assignments are stored: `prefix/node/channel`. */
module ChannelKeys {
  import opened Wrappers

  type NodeID = int

  const MIN_INT64: int := -0x8000_0000_0000_0000
  const MAX_INT64: int := 0x7FFF_FFFF_FFFF_FFFF

  predicate IsInt64(n: int) {
    MIN_INT64 <= n <= MAX_INT64
  }

  // ---------------------------------------------------------------- decimal numbers

  predicate IsDigit(c: char) {
    '0' <= c <= '9'
  }

  function DigitOf(n: nat): (c: char)
    requires n < 10
    ensures IsDigit(c) && ValueOf(c) == n
  {
    ('0' as int + n) as char
  }

  function ValueOf(c: char): nat
    requires IsDigit(c)
  {
    c as int - '0' as int
  }

  function Digits(n: nat): (s: string)
    ensures |s| > 0 && forall i :: 0 <= i < |s| ==> IsDigit(s[i])
  {
    if n < 10 then [DigitOf(n)] else Digits(n / 10) + [DigitOf(n % 10)]
  }

  function Render(n: int): string {
    if n < 0 then "-" + Digits(-n) else Digits(n)
  }

  predicate AllDigits(s: string) {
    forall i :: 0 <= i < |s| ==> IsDigit(s[i])
  }

  function Value(s: string): nat
    requires AllDigits(s)
  {
    if s == [] then 0 else 10 * Value(s[..|s| - 1]) + ValueOf(s[|s| - 1])
  }

  /** A decimal number with an optional sign that fits 64 bits. */
  function ParseInt(s: string): Option<int> {
    var negative := s != [] && s[0] == '-';
    var digits := if s != [] && (s[0] == '-' || s[0] == '+') then s[1..] else s;
    if digits == [] || !AllDigits(digits) then None
    else
      var n: int := if negative then 0 - Value(digits) else Value(digits);
      if IsInt64(n) then Some(n) else None
  }

  lemma {:induction false} DigitsValue(n: nat)
    ensures Value(Digits(n)) == n
  {
    if n >= 10 {
      DigitsValue(n / 10);
      assert Digits(n)[..|Digits(n)| - 1] == Digits(n / 10);
    } else {
      assert Digits(n)[..0] == [];
    }
  }

  /** Every 64-bit number, the least one included, is read back as it was written. */
  lemma ParseRender(n: int)
    requires IsInt64(n)
    ensures ParseInt(Render(n)) == Some(n)
  {
    if n < 0 {
      DigitsValue(-n);
      assert Render(n)[1..] == Digits(-n);
    } else {
      DigitsValue(n);
      assert IsDigit(Render(n)[0]);
    }
  }

  /** `s` is these digits, after a sign or without one, and stands for `n`. */
  ghost predicate Writes(s: string, d: string, n: int) {
    && d != [] && AllDigits(d)
    && ((n == Value(d) && (s == d || s == "+" + d)) || (n == 0 - Value(d) && s == "-" + d))
  }

  /** Exactly the decimal numbers that fit 64 bits are read, with a sign or without, and as what they stand for. */
  lemma ParsesExactly(s: string, n: int)
    ensures ParseInt(s) == Some(n) <==> IsInt64(n) && exists d :: Writes(s, d, n)
  {
    if ParseInt(s) == Some(n) {
      var d := if s[0] == '-' || s[0] == '+' then s[1..] else s;
      assert s == (if s[0] == '-' then "-" + d else if s[0] == '+' then "+" + d else d);
      assert Writes(s, d, n);
    }
    if d :| IsInt64(n) && Writes(s, d, n) {
      assert IsDigit(d[0]);
      assert s == d || s[1..] == d;
    }
  }

  // ---------------------------------------------------------------- components

  const SLASH := '/'

  /** Components between slashes; never none. */
  function Split(s: string, i: nat): (r: seq<string>)
    requires i <= |s|
    ensures |r| > 0
    decreases |s| - i
  {
    if i == |s| then [s]
    else if s[i] == SLASH then [s[..i]] + Split(s[i + 1..], 0)
    else Split(s, i + 1)
  }

  predicate NoSlash(s: string) {
    forall i :: 0 <= i < |s| ==> s[i] != SLASH
  }

  /** There is a single component, the whole, exactly when there is no slash. */
  lemma {:induction false} SplitPlain(s: string, i: nat)
    requires i <= |s| && forall k :: 0 <= k < i ==> s[k] != SLASH
    ensures NoSlash(s) ==> Split(s, i) == [s]
    ensures !NoSlash(s) ==> |Split(s, i)| > 1
    decreases |s| - i
  {
    if i == |s| || s[i] == SLASH {
    } else {
      SplitPlain(s, i + 1);
    }
  }

  /** Components of two strings joined by a slash. */
  lemma {:induction false} SplitJoin(a: string, b: string, i: nat)
    requires i <= |a|
    ensures Split(a + [SLASH] + b, i) == Split(a, i) + Split(b, 0)
    decreases |a| - i
  {
    var s := a + [SLASH] + b;
    if i == |a| {
      assert s[..i] == a && s[i + 1..] == b;
    } else if a[i] == SLASH {
      assert s[i] == SLASH && s[..i] == a[..i];
      assert s[i + 1..] == a[i + 1..] + [SLASH] + b;
      SplitJoin(a[i + 1..], b, 0);
    } else {
      assert s[i] == a[i];
      SplitJoin(a, b, i + 1);
    }
  }

  // ---------------------------------------------------------------- keys

  function BuildNodeChannelKey(prefix: string, node: NodeID, name: string): string {
    prefix + [SLASH] + Render(node) + [SLASH] + name
  }

  /** The last component but one, as a number. */
  function ParseNodeKey(key: string): Option<NodeID> {
    var s := Split(key, 0);
    if |s| < 2 then None else ParseInt(s[|s| - 2])
  }

  lemma RenderIsInjective(n: int, m: int)
    requires Render(n) == Render(m)
    ensures n == m
  {
    assert Digits(if n < 0 then -n else n) == if n < 0 then Render(n)[1..] else Render(n);
    assert Digits(if m < 0 then -m else m) == if m < 0 then Render(m)[1..] else Render(m);
    assert IsDigit(Digits(if n < 0 then -n else n)[0]) && IsDigit(Digits(if m < 0 then -m else m)[0]);
    DigitsValue(if n < 0 then -n else n);
    DigitsValue(if m < 0 then -m else m);
  }

  lemma KeyComponents(prefix: string, node: NodeID, name: string)
    ensures Split(BuildNodeChannelKey(prefix, node, name), 0) == Split(prefix, 0) + [Render(node)] + Split(name, 0)
  {
    assert NoSlash(Render(node));
    SplitPlain(Render(node), 0);
    SplitJoin(prefix, Render(node), 0);
    SplitJoin(prefix + [SLASH] + Render(node), name, 0);
  }

  /** Whether the node is found in the key of its channel: the name has no slash, or reads as a key of that node
      itself. */
  predicate Readable(node: NodeID, name: string) {
    NoSlash(name) || ParseNodeKey(name) == Some(node)
  }

  /** Parsing a built key gives back the node exactly for readable names, whatever the prefix; for any other name
      it gives what the name itself reads as. */
  lemma ParseBuiltKey(prefix: string, node: NodeID, name: string)
    requires IsInt64(node)
    ensures ParseNodeKey(BuildNodeChannelKey(prefix, node, name))
      == if NoSlash(name) then Some(node) else ParseNodeKey(name)
    ensures ParseNodeKey(BuildNodeChannelKey(prefix, node, name)) == Some(node) <==> Readable(node, name)
  {
    KeyComponents(prefix, node, name);
    ParseRender(node);
    SplitPlain(name, 0);
    var s, t := Split(prefix, 0) + [Render(node)] + Split(name, 0), Split(name, 0);
    assert s[|s| - 2] == if |t| == 1 then Render(node) else t[|t| - 2];
  }

  /** Different assignments have different keys, whatever their names. */
  lemma KeysDiffer(prefix: string, node: NodeID, name: string, node': NodeID, name': string)
    requires BuildNodeChannelKey(prefix, node, name) == BuildNodeChannelKey(prefix, node', name')
    ensures node == node' && name == name'
  {
    KeyComponents(prefix, node, name);
    KeyComponents(prefix, node', name');
    var k := |Split(prefix, 0)|;
    assert (Split(prefix, 0) + [Render(node)] + Split(name, 0))[k] == Render(node);
    assert (Split(prefix, 0) + [Render(node')] + Split(name', 0))[k] == Render(node');
    RenderIsInjective(node, node');
    var front := prefix + [SLASH] + Render(node) + [SLASH];
    assert (front + name)[|front|..] == name && (front + name')[|front|..] == name';
  }

  /** A name with a slash can be taken for another node's. */
  lemma SlashInNameMisleads()
    ensures ParseNodeKey(BuildNodeChannelKey("p", 7, "8/x")) == Some(8) && !Readable(7, "8/x")
  {
  }
}
