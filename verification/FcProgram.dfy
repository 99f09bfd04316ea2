/** The firecracker driver's setup program: names, addresses, rules and the command list. */
module FcProgram {
  import opened Options
  import Decimal
  import opened Firewall

  const MAX_SLOTS: nat := 256
  const CLAIM_PORT: nat := 8301

  // ---- slots

  function Name(i: nat, suffix: char): string {
    "wfc" + Decimal.Print(i) + [suffix]
  }

  function Bridge(i: nat): string { Name(i, 'b') }
  function RelayTap(i: nat): string { Name(i, 'r') }
  function GuestTap(i: nat): string { Name(i, 'g') }
  function UpstreamTap(i: nat): string { Name(i, 'u') }

  /** The address a.b.c.d. */
  function Ip(a: nat, b: nat, c: nat, d: nat): nat {
    a * 0x100_0000 + b * 0x1_0000 + c * 0x100 + d
  }

  const UPSTREAM_BASE: nat := Ip(100, 64, 88, 0)
  const UPSTREAM_SIZE: nat := 1024 // a /22

  function SlotAddr(i: nat, off: nat): nat {
    var n := 4 * i + off;
    Ip(100, 64, 88 + n / 256, n % 256)
  }

  function RelayAddr(i: nat): nat { SlotAddr(i, 2) }

  /** slotAddr(i, 1) as text: the host's address on the upstream TAP. */
  function HostAddrText(i: nat): string {
    var n := 4 * i + 1;
    "100.64." + Decimal.Print(88 + n / 256) + "." + Decimal.Print(n % 256)
  }

  // ---- chains

  const IN := Key(Filter, "WARDEN-FC-IN")
  const FWD := Key(Filter, "WARDEN-FC-FWD")
  const OUT := Key(Filter, "WARDEN-FC-OUT")
  const RAW := Key(Raw, "WARDEN-FC-RAW")
  const NAT := Key(Nat, "WARDEN-FC-NAT")
  const V6 := Key(Filter6, "WARDEN-FC6")

  const OWN: set<Key> := {IN, FWD, OUT, RAW, NAT, V6}

  /** The chain of setup's that hook k jumps to. */
  function HookChain(k: Key): Option<string> {
    if k == Key(Filter, "INPUT") then Some(IN.name)
    else if k == Key(Filter, "FORWARD") then Some(FWD.name)
    else if k == Key(Filter, "OUTPUT") then Some(OUT.name)
    else if k == Key(Raw, "PREROUTING") then Some(RAW.name)
    else if k == Key(Nat, "POSTROUTING") then Some(NAT.name)
    else if k.t == Filter6 && k.name in {"INPUT", "FORWARD", "OUTPUT"} then Some(V6.name)
    else None
  }

  const EVERYTHING := Match(AnyIf, AnyIf, AnyAddr, AnyAddr, [])

  function JumpTo(c: string): Rule {
    Rule(EVERYTHING, Jump(c))
  }

  // ---- rules

  datatype Params = Params(slots: nat, uid: nat, uplink: string, mtu: int, addrOK: set<nat>)

  const ANY_TAP := Prefixed("wfc")

  function InRules(i: nat): seq<Rule> {
    [Rule(Match(Named(Bridge(i)), AnyIf, AnyAddr, AnyAddr, []), Drop),
     Rule(Match(Named(UpstreamTap(i)), AnyIf, Addr(RelayAddr(i)), AnyAddr, [InState({Established})]), Accept)]
  }

  function FwdRules(i: nat, p: Params): seq<Rule> {
    var u, b, relay := Named(UpstreamTap(i)), Named(Bridge(i)), Addr(RelayAddr(i));
    var up := Named(p.uplink);
    [Rule(Match(u, up, relay, AnyAddr, [IsProto(Tcp), TcpSyn]), TcpMss),
     Rule(Match(up, u, AnyAddr, relay, [IsProto(Tcp), TcpSyn, MssFrom(p.mtu - 39)]), TcpMss),
     Rule(Match(u, up, relay, AnyAddr, []), Accept),
     Rule(Match(up, u, AnyAddr, relay, [InState({Established, Related})]), Accept),
     Rule(Match(u, AnyIf, AnyAddr, AnyAddr, []), Drop),
     Rule(Match(b, b, AnyAddr, AnyAddr, []), Accept)]
  }

  function OutRules(i: nat, p: Params): seq<Rule> {
    [Rule(Match(AnyIf, Named(UpstreamTap(i)), AnyAddr, Addr(RelayAddr(i)),
                [IsProto(Tcp), DPort(CLAIM_PORT), InState({New}), Owner(p.uid)]), Accept)]
  }

  function RawRules(i: nat): seq<Rule> {
    [Rule(Match(Named(Bridge(i)), AnyIf, AnyAddr, AnyAddr, []), CtZone(i + 1))]
  }

  function NftRules(i: nat): seq<Rule> {
    [Rule(Match(Named(RelayTap(i)), Named(GuestTap(i)), AnyAddr, AnyAddr, []), Accept),
     Rule(Match(Named(GuestTap(i)), Named(RelayTap(i)), AnyAddr, AnyAddr, []), Accept)]
  }

  const DROP_FROM_TAPS := Rule(Match(ANY_TAP, AnyIf, AnyAddr, AnyAddr, []), Drop)
  const DROP_TO_TAPS := Rule(Match(AnyIf, ANY_TAP, AnyAddr, AnyAddr, []), Drop)

  const LAST_OUT_RULES: seq<Rule> := [
    Rule(Match(AnyIf, ANY_TAP, AnyAddr, Net(UPSTREAM_BASE, UPSTREAM_SIZE), [InState({Established})]), Accept),
    Rule(Match(AnyIf, ANY_TAP, AnyAddr, Net(UPSTREAM_BASE, UPSTREAM_SIZE), [IsProto(Icmp), InState({Related})]),
         Accept),
    DROP_TO_TAPS]

  function NatRules(p: Params): seq<Rule> {
    [Rule(Match(AnyIf, Named(p.uplink), Net(UPSTREAM_BASE, UPSTREAM_SIZE), AnyAddr, []), Masquerade)]
  }

  // ---- the command list

  function Appends(k: Key, rules: seq<Rule>): seq<Step> {
    if rules == [] then [] else [Do(Append(k, rules[0]))] + Appends(k, rules[1..])
  }

  function NftAppends(c: string, rules: seq<Rule>): seq<Step> {
    if rules == [] then [] else [Do(NftAddRule(c, rules[0]))] + NftAppends(c, rules[1..])
  }

  /** Delete every copy of the jump from hook to k, then empty and delete k. */
  function FlushOne(hook: Key, k: Key): seq<Step> {
    [UntilFail(DeleteRule(hook, JumpTo(k.name))), Tolerant(FlushChain(k)), Tolerant(DeleteChain(k))]
  }

  const FLUSH6: seq<Step> := [
    UntilFail(DeleteRule(Key(Filter6, "INPUT"), JumpTo(V6.name))),
    UntilFail(DeleteRule(Key(Filter6, "FORWARD"), JumpTo(V6.name))),
    UntilFail(DeleteRule(Key(Filter6, "OUTPUT"), JumpTo(V6.name))),
    Tolerant(FlushChain(V6)), Tolerant(DeleteChain(V6)),
    Tolerant(NftDeleteTable)]

  const FLUSH: seq<Step> :=
    FlushOne(Key(Filter, "INPUT"), IN) + FlushOne(Key(Filter, "FORWARD"), FWD)
    + FlushOne(Key(Filter, "OUTPUT"), OUT) + FlushOne(Key(Raw, "PREROUTING"), RAW)
    + FlushOne(Key(Nat, "POSTROUTING"), NAT) + FLUSH6

  /** The bridge table, then every chain, new and empty. */
  const CREATE_NFT: seq<Step> := [
    Do(NftAddTable), Do(NftAddChain("input")), Do(NftAddRule("input", DROP_FROM_TAPS)), Do(NftAddChain("forward"))]

  function NewChains(ks: seq<Key>): seq<Step> {
    if ks == [] then [] else [Do(NewChain(ks[0]))] + NewChains(ks[1..])
  }

  const CREATE: seq<Step> := NewChains([IN, FWD, OUT, RAW, NAT, V6])

  function Device(name: string): seq<Step> {
    [Ensure(name), Do(Plumb(["sysctl", "-qw", "net.ipv6.conf." + name + ".disable_ipv6=1"]))]
  }

  /** A slot's interfaces and their settings. */
  function SlotLinks(i: nat, p: Params): seq<Step> {
    var b, r, g, u := Bridge(i), RelayTap(i), GuestTap(i), UpstreamTap(i);
    Device(b) + Device(r) + Device(g) + Device(u)
    + [Do(Plumb(["ip", "link", "set", r, "master", b])), Do(Plumb(["ip", "link", "set", g, "master", b]))]
    + (if i in p.addrOK then []
       else [Do(Plumb(["ip", "addr", "flush", "dev", u])),
             Do(Plumb(["ip", "addr", "add", HostAddrText(i) + "/30", "dev", u]))])
    + [Do(Plumb(["sysctl", "-qw", "net.ipv4.conf." + b + ".rp_filter=1", "net.ipv4.conf." + u + ".rp_filter=1",
                 "net.ipv4.conf." + b + ".arp_ignore=8"])),
       Do(Plumb(["ip", "link", "set", b, "up"])), Do(Plumb(["ip", "link", "set", r, "up"])),
       Do(Plumb(["ip", "link", "set", g, "up"])), Do(Plumb(["ip", "link", "set", u, "up"]))]
  }

  function SlotSteps(i: nat, p: Params): seq<Step> {
    SlotLinks(i, p) + NftAppends("forward", NftRules(i)) + Appends(IN, InRules(i)) + Appends(FWD, FwdRules(i, p))
    + Appends(OUT, OutRules(i, p)) + Appends(RAW, RawRules(i))
  }

  function AllSlots(n: nat, p: Params): seq<Step> {
    if n == 0 then [] else AllSlots(n - 1, p) + SlotSteps(n - 1, p)
  }

  function LastRules(p: Params): seq<Step> {
    NftAppends("forward", [DROP_FROM_TAPS, DROP_TO_TAPS]) + Appends(IN, [DROP_FROM_TAPS])
    + Appends(FWD, [DROP_FROM_TAPS, DROP_TO_TAPS]) + Appends(OUT, LAST_OUT_RULES) + Appends(NAT, NatRules(p))
    + Appends(V6, [DROP_FROM_TAPS, DROP_TO_TAPS])
  }

  const HOOKS: seq<Key> := [
    Key(Filter, "INPUT"), Key(Filter, "FORWARD"), Key(Filter, "OUTPUT"), Key(Raw, "PREROUTING"),
    Key(Nat, "POSTROUTING"), Key(Filter6, "INPUT"), Key(Filter6, "FORWARD"), Key(Filter6, "OUTPUT")]

  function Jumps(hooks: seq<Key>): seq<Step>
    requires forall i :: 0 <= i < |hooks| ==> HookChain(hooks[i]).Some?
  {
    if hooks == [] then []
    else [Do(InsertFirst(hooks[0], JumpTo(HookChain(hooks[0]).value)))] + Jumps(hooks[1..])
  }

  const ALL_JUMPS: seq<Step> := Jumps(HOOKS)

  /** Everything before the last step, which turns forwarding on. */
  function Rules(slots: seq<Step>, p: Params): seq<Step> {
    FLUSH + (CREATE_NFT + (CREATE + ((slots + LastRules(p)) + ALL_JUMPS)))
  }

  function Setup(p: Params): seq<Step> {
    Rules(AllSlots(p.slots, p), p) + [Do(SetForward)]
  }

  // ---- names and addresses

  lemma NameParts(i: nat, x: char, j: nat, y: char)
    requires Name(i, x) == Name(j, y)
    ensures i == j && x == y
  {
    var a, b := Name(i, x), Name(j, y);
    assert a[|a| - 1] == x && b[|b| - 1] == y;
    assert a[3..|a| - 1] == Decimal.Print(i) && b[3..|b| - 1] == Decimal.Print(j);
    Decimal.PrintInjective(i, j);
  }

  lemma IsTap(i: nat, x: char)
    ensures "wfc" <= Name(i, x)
  {
    assert Name(i, x)[..3] == "wfc";
  }

  /** Slot i's /30 lies in the upstream /22, apart from every other slot's. */
  lemma SlotAddresses(i: nat, j: nat, off: nat, off': nat)
    requires i < MAX_SLOTS && j < MAX_SLOTS && off < 4 && off' < 4
    ensures SlotAddr(i, off) == UPSTREAM_BASE + 4 * i + off
    ensures UPSTREAM_BASE <= SlotAddr(i, off) < UPSTREAM_BASE + UPSTREAM_SIZE
    ensures SlotAddr(i, off) == SlotAddr(j, off') ==> i == j && off == off'
  {
    var n := 4 * i + off;
    assert n == 256 * (n / 256) + n % 256;
    var m := 4 * j + off';
    assert m == 256 * (m / 256) + m % 256;
  }
}
