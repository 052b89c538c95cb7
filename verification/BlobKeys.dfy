/** The names blobs are stored under: distinct checkpoints and baselines never share one. */
module BlobKeys {

  function Digit(d: nat): char
    requires d < 10
  {
    "0123456789"[d]
  }

  /** A number in decimal, as a template string prints it. */
  function Decimal(n: nat): string {
    if n < 10 then [Digit(n)] else Decimal(n / 10) + [Digit(n % 10)]
  }

  function FormatBlobKey(stackId: string, updateId: string, version: nat): string {
    "checkpoints/" + (stackId + "/" + (updateId + "/" + Decimal(version)))
  }

  function FormatDeltaBaseBlobKey(stackId: string, updateId: string, number: nat): string {
    "checkpoints/" + (stackId + "/" + (updateId + "/" + ("base-" + Decimal(number))))
  }

  predicate NoSlash(s: string) {
    forall i :: 0 <= i < |s| ==> s[i] != '/'
  }

  /** A text splits at its first slash in one way. */
  lemma FirstSlash(a: string, x: string, b: string, y: string)
    requires NoSlash(a) && NoSlash(b) && a + "/" + x == b + "/" + y
    ensures a == b && x == y
  {
    var s := a + "/" + x;
    assert s[|a|] == '/' && s[|b|] == '/';
    assert |a| == |b|;
    assert a == s[..|a|] && b == s[..|b|];
    assert x == s[|a| + 1..] && y == s[|b| + 1..];
  }

  lemma DigitIsInjective(d: nat, c: nat)
    requires d < 10 && c < 10 && Digit(d) == Digit(c)
    ensures d == c
  {
    var t := "0123456789";
    assert forall i, j :: 0 <= i < j < 10 ==> t[i] < t[j];
  }

  lemma {:induction false} DecimalIsInjective(m: nat, n: nat)
    requires Decimal(m) == Decimal(n)
    ensures m == n
    decreases m
  {
    var s, t := Decimal(m), Decimal(n);
    DecimalIsNonempty(m / 10);
    DecimalIsNonempty(n / 10);
    assert s[|s| - 1] == Digit(m % 10) && t[|t| - 1] == Digit(n % 10);
    DigitIsInjective(m % 10, n % 10);
    if m >= 10 && n >= 10 {
      assert Decimal(m / 10) == s[..|s| - 1] && Decimal(n / 10) == t[..|t| - 1];
      DecimalIsInjective(m / 10, n / 10);
    }
  }

  lemma DecimalIsNonempty(n: nat)
    ensures |Decimal(n)| >= 1
  {
  }

  lemma {:induction false} DecimalStartsWithDigit(n: nat)
    ensures Decimal(n) != [] && Decimal(n)[0] != 'b'
  {
    if n >= 10 { DecimalStartsWithDigit(n / 10); }
  }

  lemma AfterPrefix(p: string, x: string, y: string)
    requires p + x == p + y
    ensures x == y
  {
    assert x == (p + x)[|p|..] && y == (p + y)[|p|..];
  }

  lemma SameUpdate(s: string, u: string, x: string, s': string, u': string, x': string)
    requires NoSlash(s) && NoSlash(u) && NoSlash(s') && NoSlash(u')
    requires "checkpoints/" + (s + "/" + (u + "/" + x)) == "checkpoints/" + (s' + "/" + (u' + "/" + x'))
    ensures s == s' && u == u' && x == x'
  {
    AfterPrefix("checkpoints/", s + "/" + (u + "/" + x), s' + "/" + (u' + "/" + x'));
    FirstSlash(s, u + "/" + x, s', u' + "/" + x');
    FirstSlash(u, x, u', x');
  }

  /** Full checkpoints of different stacks, updates or versions have different keys, and so have baselines. */
  lemma KeysAreDistinct(s: string, u: string, n: nat, s': string, u': string, n': nat)
    requires NoSlash(s) && NoSlash(u) && NoSlash(s') && NoSlash(u')
    ensures FormatBlobKey(s, u, n) == FormatBlobKey(s', u', n') ==> s == s' && u == u' && n == n'
    ensures FormatDeltaBaseBlobKey(s, u, n) == FormatDeltaBaseBlobKey(s', u', n') ==> s == s' && u == u' && n == n'
    ensures FormatBlobKey(s, u, n) != FormatDeltaBaseBlobKey(s', u', n')
  {
    hide NoSlash;
    if FormatBlobKey(s, u, n) == FormatBlobKey(s', u', n') {
      SameUpdate(s, u, Decimal(n), s', u', Decimal(n'));
      DecimalIsInjective(n, n');
    }
    if FormatDeltaBaseBlobKey(s, u, n) == FormatDeltaBaseBlobKey(s', u', n') {
      SameUpdate(s, u, "base-" + Decimal(n), s', u', "base-" + Decimal(n'));
      AfterPrefix("base-", Decimal(n), Decimal(n'));
      DecimalIsInjective(n, n');
    }
    if FormatBlobKey(s, u, n) == FormatDeltaBaseBlobKey(s', u', n') {
      SameUpdate(s, u, Decimal(n), s', u', "base-" + Decimal(n'));
      DecimalStartsWithDigit(n);
      assert false;
    }
  }
}
