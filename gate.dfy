/** The `io.use` connection gate and the address the connection handler keeps for the
    socket. */
module Gate {
  import opened Wrappers
  import opened JsString
  import opened NetAddress

  /** What the gate reads from `socket.handshake`; an absent header is `None`. */
  datatype Handshake = Handshake(forwardedFor: Option<string>, cfConnectingIp: Option<string>, address: string)

  /** JavaScript truthiness of a header value: present and not empty. */
  predicate Truthy(h: Option<string>) {
    h.Some? && h.value != ""
  }

  /** `headers['x-forwarded-for'] || headers['cf-connecting-ip'] || socket.handshake.address`. */
  function RawAddress(hs: Handshake): string {
    if Truthy(hs.forwardedFor) then hs.forwardedFor.value
    else if Truthy(hs.cfConnectingIp) then hs.cfConnectingIp.value
    else hs.address
  }

  /** The address the gate looks up in the ban set and attaches as `socket.clientIp`. */
  function GateIp(hs: Handshake): string {
    NormalizeIp(RawAddress(hs))
  }

  /** `socket.clientIp || normalizeIp(socket.handshake.address || '')`: the address the
      connection handler stores with the session. */
  function SessionIp(hs: Handshake): string {
    if GateIp(hs) != "" then GateIp(hs) else NormalizeIp(hs.address)
  }

  /** The gate turns the connection away. */
  predicate Refused(banlist: set<string>, hs: Handshake) {
    GateIp(hs) in banlist
  }

  /** The gate refuses exactly when the first non-empty of the forwarded-for header,
      the Cloudflare header and the socket address normalises to a banned key. */
  lemma RefusedByPrecedence(banlist: set<string>, hs: Handshake)
    ensures Truthy(hs.forwardedFor) ==> (Refused(banlist, hs) <==> NormalizeIp(hs.forwardedFor.value) in banlist)
    ensures !Truthy(hs.forwardedFor) && Truthy(hs.cfConnectingIp) ==>
      (Refused(banlist, hs) <==> NormalizeIp(hs.cfConnectingIp.value) in banlist)
    ensures !Truthy(hs.forwardedFor) && !Truthy(hs.cfConnectingIp) ==>
      (Refused(banlist, hs) <==> NormalizeIp(hs.address) in banlist)
  {
  }

  /** The stored address is the gate's key whenever that key is not empty, and neither
      ever holds a comma. */
  lemma SessionIpIsGateIp(hs: Handshake)
    ensures GateIp(hs) != "" ==> SessionIp(hs) == GateIp(hs)
    ensures ',' !in SessionIp(hs) && ',' !in GateIp(hs)
  {
  }

  /** A forwarded-for header of `","` normalises to the empty key, so the gate checks ""
      while the session is stored under the socket address: a banned socket address is
      admitted and registered under the banned key. */
  lemma EmptyKeyAdmitsBannedAddress()
    ensures var hs := Handshake(Some(","), None, "10.0.0.5");
      GateIp(hs) == "" && SessionIp(hs) == "10.0.0.5" && !Refused({"10.0.0.5"}, hs)
  {
    var hs := Handshake(Some(","), None, "10.0.0.5");
    assert RawAddress(hs) == ",";
    assert Split(",", ',') == ["", ""] by {
      assert IndexOf(",", ',') == 0;
      assert ","[1..] == "";
    }
    assert Trim("") == "";
    assert NormalizeIp(",") == "";
    assert "10.0.0.5"[0] != MappedPrefix[0];
    assert ',' !in "10.0.0.5";
  }
}
