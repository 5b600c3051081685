/** Canonical tenant keys: how identities are written as text and named by an administrator. */
module Tenant {
  import opened Text

  newtype Byte = x: int | 0 <= x < 256

  /** An address, as its octets. */
  type Ip = seq<Byte>

  /** How an address is displayed. */
  type Display = Ip -> string

  datatype Identity =
    | Authenticated(id: string)
    | Header(id: string)
    | IpAddress(ip: Ip)
    | Anonymous
    | Explicit(key: string)

  datatype Resolution = Target(key: string) | MissingTargetTenant

  function IntoKey(identity: Identity, show: Display): string {
    match identity
    case Authenticated(id) => "auth:" + id
    case Header(id) => "header:" + id
    case IpAddress(ip) => "ip:" + show(ip)
    case Anonymous => "anonymous"
    case Explicit(key) => key
  }

  function ResolveAdminTarget(tenant: string, show: Display): Resolution {
    var key := Trim(tenant);
    if key == "" then MissingTargetTenant else Target(IntoKey(Explicit(key), show))
  }

  const HEX_DIGITS := "0123456789abcdef"

  function Hex(hash: seq<Byte>): string {
    if hash == [] then ""
    else
      var b := hash[|hash| - 1] as int;
      Hex(hash[..|hash| - 1]) + [HEX_DIGITS[b / 16], HEX_DIGITS[b % 16]]
  }

  /** The key of a 32-byte digest, pushed digit by digit. */
  method AuthenticatedKey(hash: seq<Byte>) returns (key: string)
    ensures forall show :: key == IntoKey(Authenticated(Hex(hash)), show)
    ensures |hash| == 32 ==> |key| == 69
  {
    key := "auth:";
    for i := 0 to |hash|
      invariant key == "auth:" + Hex(hash[..i]) && |key| == 5 + 2 * i
    {
      assert hash[..i + 1][..i] == hash[..i];
      var b := hash[i] as int;
      key := key + [HEX_DIGITS[b / 16]];
      key := key + [HEX_DIGITS[b % 16]];
      assert key == "auth:" + (Hex(hash[..i]) + [HEX_DIGITS[b / 16], HEX_DIGITS[b % 16]]);
    }
    assert hash[..|hash|] == hash;
  }

  function DigitValue(c: char): Option<int> {
    if '0' <= c <= '9' then Some(c as int - '0' as int)
    else if 'a' <= c <= 'f' then Some(c as int - 'a' as int + 10)
    else None
  }

  function Unhex(text: string): Option<seq<Byte>> {
    if text == "" then Some([])
    else if |text| == 1 then None
    else
      var rest := Unhex(text[..|text| - 2]);
      var high, low := DigitValue(text[|text| - 2]), DigitValue(text[|text| - 1]);
      if rest.Some? && high.Some? && low.Some? then Some(rest.value + [(16 * high.value + low.value) as Byte]) else None
  }

  lemma DigitRoundTrip(d: nat)
    requires d < 16
    ensures DigitValue(HEX_DIGITS[d]) == Some(d) && !IsSpace(HEX_DIGITS[d])
  {
    assert HEX_DIGITS[0] == '0' && HEX_DIGITS[1] == '1' && HEX_DIGITS[2] == '2' && HEX_DIGITS[3] == '3';
    assert HEX_DIGITS[4] == '4' && HEX_DIGITS[5] == '5' && HEX_DIGITS[6] == '6' && HEX_DIGITS[7] == '7';
    assert HEX_DIGITS[8] == '8' && HEX_DIGITS[9] == '9' && HEX_DIGITS[10] == 'a' && HEX_DIGITS[11] == 'b';
    assert HEX_DIGITS[12] == 'c' && HEX_DIGITS[13] == 'd' && HEX_DIGITS[14] == 'e' && HEX_DIGITS[15] == 'f';
  }

  lemma UnhexSnoc(text: string, hash: seq<Byte>, high: char, low: char, b: Byte)
    requires Unhex(text) == Some(hash)
    requires DigitValue(high) == Some(b as int / 16) && DigitValue(low) == Some(b as int % 16)
    ensures Unhex(text + [high, low]) == Some(hash + [b])
  {
    var more := text + [high, low];
    assert more[..|more| - 2] == text;
  }

  lemma HexSnoc(hash: seq<Byte>, b: Byte)
    ensures Hex(hash + [b]) == Hex(hash) + [HEX_DIGITS[b as int / 16], HEX_DIGITS[b as int % 16]]
  {
    assert (hash + [b])[..|hash|] == hash;
  }

  /** A key determines the digest it was written from. */
  lemma {:induction false} HexRoundTrip(hash: seq<Byte>)
    ensures Unhex(Hex(hash)) == Some(hash)
  {
    if hash == [] {
    } else {
      var init, b := hash[..|hash| - 1], hash[|hash| - 1];
      HexRoundTrip(init);
      DigitRoundTrip(b as int / 16);
      DigitRoundTrip(b as int % 16);
      HexSnoc(init, b);
      UnhexSnoc(Hex(init), init, HEX_DIGITS[b as int / 16], HEX_DIGITS[b as int % 16], b);
      assert hash == init + [b];
    }
  }

  /** What a key names: a credential, a header, an address, nobody, or something an administrator made up. */
  datatype Named = Credential(id: string) | FromHeader(id: string) | FromAddress(shown: string) | Nobody | Other

  function ReadKey(key: string): Named {
    if key == "anonymous" then Nobody
    else if StartsWith(key, "auth:") then Credential(key[5..])
    else if StartsWith(key, "header:") then FromHeader(key[7..])
    else if StartsWith(key, "ip:") then FromAddress(key[3..])
    else Other
  }

  /** A key tells the kind of its identity by its prefix, and the identity behind it. */
  lemma KeyReadsBack(identity: Identity, show: Display)
    ensures var read := ReadKey(IntoKey(identity, show));
            match identity
            case Authenticated(id) => read == Credential(id)
            case Header(id) => read == FromHeader(id)
            case IpAddress(ip) => read == FromAddress(show(ip))
            case Anonymous => read == Nobody
            case Explicit(key) => read == ReadKey(key) && IntoKey(identity, show) == key
  {
    var key := IntoKey(identity, show);
    assert "anonymous"[1] == 'n' && "auth:"[1] == 'u' && "header:"[0] == 'h' && "ip:"[0] == 'i';
    match identity
    case Authenticated(id) => assert key[1] == 'u' && key[5..] == id;
    case Header(id) => assert key[0] == 'h' && key[7..] == id;
    case IpAddress(ip) => assert key[0] == 'i' && key[3..] == show(ip);
    case _ =>
  }

  /** Identities that are not spelled out by an administrator share a key only as addresses displayed alike. */
  lemma IntoKeyIff(a: Identity, b: Identity, show: Display)
    requires !a.Explicit? && !b.Explicit?
    ensures IntoKey(a, show) == IntoKey(b, show)
            <==> a == b || (a.IpAddress? && b.IpAddress? && show(a.ip) == show(b.ip))
  {
    var s, t := IntoKey(a, show), IntoKey(b, show);
    if s == t {
      assert "auth:"[0] == 'a' && "auth:"[1] == 'u' && "header:"[0] == 'h' && "ip:"[0] == 'i';
      assert "anonymous"[0] == 'a' && "anonymous"[1] == 'n';
      match a
      case Authenticated(id) =>
        assert id == s[5..] && t[1] == 'u';
        assert b.Authenticated? && b.id == t[5..];
      case Header(id) =>
        assert id == s[7..] && t[0] == 'h';
        assert b.Header? && b.id == t[7..];
      case IpAddress(ip) =>
        assert show(ip) == s[3..] && t[0] == 'i';
        assert b.IpAddress? && show(b.ip) == t[3..];
      case Anonymous =>
        assert t[1] == 'n';
        assert b.Anonymous?;
    }
  }

  /** Naming a digest's key as an administrator, with any surrounding space, reaches that tenant. */
  lemma AdminReachesDigest(hash: seq<Byte>, left: string, right: string, show: Display)
    requires AllSpace(left) && AllSpace(right)
    ensures var key := IntoKey(Authenticated(Hex(hash)), show);
            ResolveAdminTarget(left + key + right, show) == Target(key)
  {
    var key := IntoKey(Authenticated(Hex(hash)), show);
    if hash != [] {
      DigitRoundTrip(hash[|hash| - 1] as int % 16);
    }
    assert key[0] == 'a' && (hash == [] ==> key[|key| - 1] == ':');
    TrimPadded(left, key, right);
  }

  /** Exactly the identities whose key carries no space at an end can be named as they are. */
  lemma AdminReachesIff(identity: Identity, show: Display)
    ensures var key := IntoKey(identity, show);
            ResolveAdminTarget(key, show) == Target(key) <==> key != "" && Trimmed(key)
  {
    TrimIsTrimmed(IntoKey(identity, show));
  }
}
