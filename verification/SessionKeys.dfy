/** The Redis names of the session keys. The proofs use keys as data; this module shows that nothing is lost,
because two different keys never get the same name. */
module SessionKeys {
  import opened SessionModel

  function Digit(d: nat): (c: char)
    requires d < 16
    ensures c != ':'
  {
    if d < 10 then (48 + d) as char else (87 + d) as char
  }

  function Hex(n: nat): (h: string)
    ensures |h| > 0 && ':' !in h
  {
    if n < 16 then [Digit(n)] else Hex(n / 16) + [Digit(n % 16)]
  }

  lemma HexParts(n: nat)
    ensures Hex(n)[|Hex(n)| - 1] == Digit(n % 16)
    ensures Hex(n)[..|Hex(n)| - 1] == if n < 16 then [] else Hex(n / 16)
  {
  }

  lemma {:induction false} HexInjective(m: nat, n: nat)
    requires Hex(m) == Hex(n)
    ensures m == n
  {
    HexParts(m);
    HexParts(n);
    assert m % 16 == n % 16;
    if m >= 16 && n >= 16 { HexInjective(m / 16, n / 16); }
  }

  function Name(k: Key): string {
    match k
    case AccountVer(email) => "account_ver:" + email
    case ChainVer(owner, chain) => "chain_ver:" + owner + ":" + Hex(chain)
    case Revoked(jti) => "revoked:" + Hex(jti)
  }

  lemma ColonThenNone(a: string, g: string)
    requires ':' !in g
    ensures (a + ":" + g)[|a|] == ':'
    ensures forall i :: |a| < i < |a| + 1 + |g| ==> (a + ":" + g)[i] != ':'
    ensures (a + ":" + g)[..|a|] == a && (a + ":" + g)[|a| + 1..] == g
  {
  }

  /** The address may contain colons, the chain id cannot, so the last colon separates the two. */
  lemma LastColonSplits(a: string, g: string, b: string, h: string)
    requires a + ":" + g == b + ":" + h && ':' !in g && ':' !in h
    ensures a == b && g == h
  {
    ColonThenNone(a, g);
    ColonThenNone(b, h);
  }

  /** Bumping or claiming one key never touches another account, chain or token. */
  lemma NamesAreInjective(k: Key, l: Key)
    requires Name(k) == Name(l)
    ensures k == l
  {
    assert Name(k)[0] == Name(l)[0];
    match k
    case AccountVer(email) =>
      assert Name(k)[12..] == email && Name(l)[12..] == l.email;
    case ChainVer(owner, chain) =>
      assert Name(k)[10..] == owner + ":" + Hex(chain) && Name(l)[10..] == l.owner + ":" + Hex(l.chain);
      LastColonSplits(owner, Hex(chain), l.owner, Hex(l.chain));
      HexInjective(chain, l.chain);
    case Revoked(jti) =>
      assert Name(k)[8..] == Hex(jti) && Name(l)[8..] == Hex(l.jti);
      HexInjective(jti, l.jti);
  }
}
