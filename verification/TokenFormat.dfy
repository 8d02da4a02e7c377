/** Bearer-token plaintexts: `mk_usr_<16 hex>_<secret>` and `mk_agt_<16 hex>_<secret>`. */
module TokenFormat {
  import opened Base
  import opened TokenCache

  const ID_PREFIX := "tok_"
  const ID_HEX_LEN := 16

  /** A plaintext of the new shape, taken apart; `tokenId` is the full row id. */
  datatype Parsed = Parsed(kind: Kind, tokenId: string, secret: string)

  function KindPrefix(kind: Kind): string {
    if kind.User? then "mk_usr_" else "mk_agt_"
  }

  predicate IsHex(c: char) {
    '0' <= c <= '9' || 'a' <= c <= 'f'
  }

  /** Sixteen lowercase hex digits. */
  predicate IsHexId(s: string) {
    |s| == ID_HEX_LEN && forall i :: 0 <= i < |s| ==> IsHex(s[i])
  }

  /** What `(.+)` matches: anything but a newline, at least once. */
  predicate IsSecret(s: string) {
    s != [] && '\n' !in s
  }

  function RemovePrefix(s: string, prefix: string): string {
    if prefix <= s then s[|prefix|..] else s
  }

  function Format(kind: Kind, tokenId: string, secret: string): string {
    KindPrefix(kind) + RemovePrefix(tokenId, ID_PREFIX) + "_" + secret
  }

  /** `fullmatch` of `^mk_(usr|agt)_([0-9a-f]{16})_(.+)$`. */
  function Parse(plaintext: string): Option<Parsed> {
    if |plaintext| < 24 then None
    else
      var head, hex, sep, secret := plaintext[..7], plaintext[7..23], plaintext[23], plaintext[24..];
      if (head == KindPrefix(User) || head == KindPrefix(Agent)) && IsHexId(hex) && sep == '_' && IsSecret(secret)
      then Some(Parsed(if head == KindPrefix(User) then User else Agent, ID_PREFIX + hex, secret))
      else None
  }

  /** Every minted plaintext parses back to the kind, row id and secret it was built from. */
  lemma ParseFormat(kind: Kind, hex: string, secret: string)
    requires IsHexId(hex) && IsSecret(secret)
    ensures Parse(Format(kind, ID_PREFIX + hex, secret)) == Some(Parsed(kind, ID_PREFIX + hex, secret))
  {
    assert RemovePrefix(ID_PREFIX + hex, ID_PREFIX) == hex;
    var plaintext := Format(kind, ID_PREFIX + hex, secret);
    assert plaintext[..7] == KindPrefix(kind);
    assert plaintext[7..23] == hex;
    assert plaintext[24..] == secret;
    assert KindPrefix(User)[3] != KindPrefix(Agent)[3];
  }

  /** Which plaintexts parse, and to what: the prefix of the kind, sixteen hex digits, an underscore, the secret. */
  lemma ParseIff(plaintext: string, kind: Kind, hex: string, secret: string)
    requires |hex| == 16 && (forall c :: c in hex ==> c in "0123456789abcdef")
    requires secret != "" && '\n' !in secret
    ensures Parse(plaintext) == Some(Parsed(kind, "tok_" + hex, secret))
            <==> plaintext == (if kind == User then "mk_usr_" else "mk_agt_") + hex + "_" + secret
  {
    forall i | 0 <= i < |hex| ensures IsHex(hex[i]) { assert hex[i] in hex; }
    ParseFormat(kind, hex, secret);
    assert Format(kind, ID_PREFIX + hex, secret) == KindPrefix(kind) + hex + "_" + secret;
    FormatParse(plaintext);
  }

  /** A successful parse loses nothing: formatting its parts gives the plaintext back. */
  lemma FormatParse(plaintext: string)
    ensures Parse(plaintext).Some? ==>
              var p := Parse(plaintext).value;
              Format(p.kind, p.tokenId, p.secret) == plaintext
              && |p.tokenId| == 20 && p.tokenId[..4] == "tok_"
              && (forall c :: c in p.tokenId[4..] ==> c in "0123456789abcdef")
              && p.secret != "" && '\n' !in p.secret
  {
    if Parse(plaintext).Some? {
      var p := Parse(plaintext).value;
      assert p.tokenId[4..] == plaintext[7..23] && p.tokenId[..4] == ID_PREFIX;
      assert KindPrefix(p.kind) == plaintext[..7];
      assert plaintext == plaintext[..7] + plaintext[7..23] + [plaintext[23]] + plaintext[24..];
    }
  }
}
