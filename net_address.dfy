/** The two address helpers of the server: `normalizeIp`, which turns a raw handshake
    address or forwarded-for chain into the key the ban set is indexed by, and `maskIp`,
    which hides the host part of an address before it is shown to other users. */
module NetAddress {
  import opened JsString

  /** The prefix of an IPv4 address written in IPv6-mapped form. */
  const MappedPrefix: string := "::ffff:"

  /** Drops one leading `::ffff:` (`ip.replace("::ffff:", "")` after `startsWith`
      removes the first occurrence, which is the prefix). */
  function StripMapped(ip: string): string {
    if MappedPrefix <= ip then ip[|MappedPrefix|..] else ip
  }

  /** `normalizeIp`: the empty string stays empty; a comma-separated chain is cut to
      its trimmed first entry; then one IPv6-mapped prefix is removed. */
  function NormalizeIp(ip: string): (r: string)
    ensures ',' !in r
    ensures ip == "" ==> r == ""
    ensures ',' !in ip && !(MappedPrefix <= ip) ==> r == ip
    ensures ',' !in ip && MappedPrefix <= ip ==> r == ip[7..]
  {
    if ip == "" then ""
    else
      var first := if ',' in ip then Trim(Split(ip, ',')[0]) else ip;
      StripMapped(first)
  }

  /** For a chain whose first comma is at `k`, the key is the text before it, trimmed,
      without one leading mapped prefix. */
  lemma NormalizeChain(ip: string, k: nat)
    requires k < |ip| && ip[k] == ',' && ',' !in ip[..k]
    ensures NormalizeIp(ip) == (if MappedPrefix <= Trim(ip[..k]) then Trim(ip[..k])[7..] else Trim(ip[..k]))
  {
    IndexOfUnique(ip, ',', k);
  }

  /** `normalizeIp` is not idempotent: a doubly mapped address loses one prefix per call. */
  lemma NormalizeNotIdempotent()
    ensures NormalizeIp("::ffff:::ffff:10.0.0.5") == "::ffff:10.0.0.5"
    ensures NormalizeIp(NormalizeIp("::ffff:::ffff:10.0.0.5")) == "10.0.0.5"
  {
    assert ',' !in "::ffff:::ffff:10.0.0.5";
    assert ',' !in "::ffff:10.0.0.5";
    assert MappedPrefix <= "::ffff:::ffff:10.0.0.5";
    assert MappedPrefix <= "::ffff:10.0.0.5";
  }

  /** Applying `normalizeIp` to its own result changes nothing unless the result still
      starts with the mapped prefix. */
  lemma NormalizeStable(ip: string)
    requires !(MappedPrefix <= NormalizeIp(ip))
    ensures NormalizeIp(NormalizeIp(ip)) == NormalizeIp(ip)
  {
  }

  predicate IsDigit(c: char) {
    '0' <= c <= '9'
  }

  /** A non-empty run of decimal digits, the regular expression `\d+`. */
  predicate IsDigitRun(s: string) {
    |s| > 0 && forall k :: 0 <= k < |s| ==> IsDigit(s[k])
  }

  /** `ip` matches `/^(\d+\.\d+\.\d+)\.\d+$/`: exactly four dot-separated digit runs. */
  predicate IsDottedQuad(ip: string) {
    var p := Split(ip, '.');
    |p| == 4 && IsDigitRun(p[0]) && IsDigitRun(p[1]) && IsDigitRun(p[2]) && IsDigitRun(p[3])
  }

  /** `maskIp`: a dotted quad keeps its first three groups and ends in `.xxx`; otherwise
      an address with at least four `:`-separated pieces keeps the first three and ends in
      `:xxxx`; anything else is shown as it is. */
  function MaskIp(ip: string): string {
    if ip == "" then ""
    else if IsDottedQuad(ip) then Join(Split(ip, '.')[..3], ".") + ".xxx"
    else
      var groups := Split(ip, ':');
      if |groups| >= 4 then Join(groups[..3], ":") + ":xxxx" else ip
  }

  /** The empty address stays empty, and an address that is neither a dotted quad nor
      has four `:`-separated pieces is shown unmasked. */
  lemma MaskKeeps(ip: string)
    ensures ip == "" ==> MaskIp(ip) == ""
    ensures !IsDottedQuad(ip) && |Split(ip, ':')| < 4 ==> MaskIp(ip) == ip
  {
  }

  /** Four digit runs `a.b.c.d` are masked to `a.b.c.xxx`. */
  lemma {:induction false} MaskDottedQuad(a: string, b: string, c: string, d: string)
    requires IsDigitRun(a) && IsDigitRun(b) && IsDigitRun(c) && IsDigitRun(d)
    ensures MaskIp(a + "." + b + "." + c + "." + d) == a + "." + b + "." + c + ".xxx"
  {
    assert '.' !in a && '.' !in b && '.' !in c && '.' !in d by {
      NoDotInDigits(a); NoDotInDigits(b); NoDotInDigits(c); NoDotInDigits(d);
    }
    SplitJoin([a, b, c, d], '.');
    Join4(a, b, c, d, ".");
    assert [a, b, c, d][..3] == [a, b, c];
    Join3(a, b, c, ".");
  }

  lemma Join3(a: string, b: string, c: string, sep: string)
    ensures Join([a, b, c], sep) == a + sep + b + sep + c
  {
    JoinCons(b, [c], sep);
    assert [a, b, c] == [a] + [b, c];
    JoinCons(a, [b, c], sep);
  }

  lemma Join4(a: string, b: string, c: string, d: string, sep: string)
    ensures Join([a, b, c, d], sep) == a + sep + b + sep + c + sep + d
  {
    Join3(b, c, d, sep);
    assert [a, b, c, d] == [a] + [b, c, d];
    JoinCons(a, [b, c, d], sep);
  }

  /** A string with a colon in it is not a dotted quad. */
  lemma ColonNotDottedQuad(ip: string)
    requires ':' in ip
    ensures !IsDottedQuad(ip)
  {
    if IsDottedQuad(ip) {
      DottedQuadShape(ip);
    }
  }

  lemma NoDotInDigits(s: string)
    requires IsDigitRun(s)
    ensures '.' !in s && ':' !in s
  {
  }

  /** Every dotted quad is four digit runs joined by dots, so it holds no colon. */
  lemma {:induction false} DottedQuadShape(ip: string)
    requires IsDottedQuad(ip)
    ensures var p := Split(ip, '.'); ip == p[0] + "." + p[1] + "." + p[2] + "." + p[3]
    ensures ':' !in ip
  {
    var p := Split(ip, '.');
    JoinSplit(ip, '.');
    assert p == [p[0], p[1], p[2], p[3]];
    Join4(p[0], p[1], p[2], p[3], ".");
    NoDotInDigits(p[0]); NoDotInDigits(p[1]); NoDotInDigits(p[2]); NoDotInDigits(p[3]);
  }

  /** An address `a:b:c:rest` is masked to `a:b:c:xxxx`, whatever `rest` holds. */
  lemma {:induction false} MaskColonGroups(a: string, b: string, c: string, rest: string)
    requires ':' !in a && ':' !in b && ':' !in c
    ensures MaskIp(a + ":" + b + ":" + c + ":" + rest) == a + ":" + b + ":" + c + ":xxxx"
  {
    var ip := a + ":" + b + ":" + c + ":" + rest;
    ColonGroups(a, b, c, rest);
    assert ip[|a|] == ':';
    ColonNotDottedQuad(ip);
    MaskColonCase(ip);
    Join3(a, b, c, ":");
  }

  lemma {:induction false} ColonGroups(a: string, b: string, c: string, rest: string)
    requires ':' !in a && ':' !in b && ':' !in c
    ensures var g := Split(a + ":" + b + ":" + c + ":" + rest, ':'); |g| >= 4 && g[..3] == [a, b, c]
  {
    var s3 := c + ":" + rest;
    var s2 := b + ":" + s3;
    SplitCons(c, ':', rest);
    SplitCons(b, ':', s3);
    SplitCons(a, ':', s2);
    ColonAssoc(a, b, c, rest);
    var g := Split(a + ":" + s2, ':');
    assert g == [a] + ([b] + ([c] + Split(rest, ':')));
    assert g[..3] == [a, b, c];
  }

  lemma ColonAssoc(a: string, b: string, c: string, rest: string)
    ensures a + ":" + (b + ":" + (c + ":" + rest)) == a + ":" + b + ":" + c + ":" + rest
  {
  }

  /** Any address that splits into at least four `:`-separated pieces keeps the first
      three and ends in `:xxxx`. */
  lemma MaskColonCase(ip: string)
    requires |Split(ip, ':')| >= 4
    ensures MaskIp(ip) == Join(Split(ip, ':')[..3], ":") + ":xxxx"
  {
    assert ':' in ip;
    ColonNotDottedQuad(ip);
  }
}
