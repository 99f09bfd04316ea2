/** setupSteps as the driver builds it, append by append, against the program the theorems are about. */
module FcBuild {
  import opened Options
  import opened Firewall
  import opened FcProgram
  import opened FcPhases
  import opened FcFlush

  // ---- lists written out

  lemma Appends2(k: Key, a: Rule, b: Rule)
    ensures Appends(k, [a]) == [Do(Append(k, a))]
    ensures Appends(k, [a, b]) == [Do(Append(k, a)), Do(Append(k, b))]
  {
    assert [a][1..] == [] && [a, b][1..] == [b] && [b][1..] == [];
  }

  lemma Appends3(k: Key, a: Rule, b: Rule, c: Rule)
    ensures Appends(k, [a, b, c]) == [Do(Append(k, a)), Do(Append(k, b)), Do(Append(k, c))]
  {
    assert [a, b, c][1..] == [b, c];
    Appends2(k, b, c);
  }

  lemma Appends6(k: Key, rs: seq<Rule>)
    requires |rs| == 6
    ensures Appends(k, rs) == [Do(Append(k, rs[0])), Do(Append(k, rs[1])), Do(Append(k, rs[2])), Do(Append(k, rs[3])),
                               Do(Append(k, rs[4])), Do(Append(k, rs[5]))]
  {
    assert rs[3..] == [rs[3], rs[4], rs[5]];
    Appends3(k, rs[3], rs[4], rs[5]);
    assert rs[1..][1..] == rs[2..] && rs[2..][1..] == rs[3..];
    assert Appends(k, rs[2..]) == [Do(Append(k, rs[2]))] + Appends(k, rs[3..]);
    assert Appends(k, rs[1..]) == [Do(Append(k, rs[1]))] + Appends(k, rs[2..]);
  }

  lemma NftAppends2(c: string, a: Rule, b: Rule)
    ensures NftAppends(c, [a, b]) == [Do(NftAddRule(c, a)), Do(NftAddRule(c, b))]
  {
    assert [a, b][1..] == [b] && [b][1..] == [];
    assert NftAppends(c, [b]) == [Do(NftAddRule(c, b))] + NftAppends(c, []);
  }

  lemma NewChains3(a: Key, b: Key, c: Key, rest: seq<Key>)
    ensures NewChains([a, b, c] + rest) == [Do(NewChain(a)), Do(NewChain(b)), Do(NewChain(c))] + NewChains(rest)
  {
    var ks := [a, b, c] + rest;
    assert ks[1..] == [b, c] + rest && ([b, c] + rest)[1..] == [c] + rest && ([c] + rest)[1..] == rest;
    assert NewChains([c] + rest) == [Do(NewChain(c))] + NewChains(rest);
    assert NewChains([b, c] + rest) == [Do(NewChain(b))] + NewChains([c] + rest);
  }

  lemma AllChains()
    ensures CREATE == [Do(NewChain(IN)), Do(NewChain(FWD)), Do(NewChain(OUT)), Do(NewChain(RAW)), Do(NewChain(NAT)),
                       Do(NewChain(V6))]
  {
    assert [IN, FWD, OUT, RAW, NAT, V6] == [IN, FWD, OUT] + ([RAW, NAT, V6] + []);
    NewChains3(IN, FWD, OUT, [RAW, NAT, V6] + []);
    NewChains3(RAW, NAT, V6, []);
  }

  function Jump(hook: Key, c: Key): Step {
    Do(InsertFirst(hook, JumpTo(c.name)))
  }

  lemma JumpsCons(k: Key, rest: seq<Key>)
    requires HookChain(k).Some? && AllHooks(rest)
    ensures Jumps([k] + rest) == [Do(InsertFirst(k, JumpTo(HookChain(k).value)))] + Jumps(rest)
  {
    assert ([k] + rest)[1..] == rest;
  }

  // ---- the flush

  const TABLES: seq<(Key, Key)> := [
    (Key(Filter, "INPUT"), IN), (Key(Filter, "FORWARD"), FWD), (Key(Filter, "OUTPUT"), OUT),
    (Key(Raw, "PREROUTING"), RAW), (Key(Nat, "POSTROUTING"), NAT)]

  const HOOKS6: seq<Key> := [Key(Filter6, "INPUT"), Key(Filter6, "FORWARD"), Key(Filter6, "OUTPUT")]

  function FlushedTables(rows: seq<(Key, Key)>): seq<Step> {
    if rows == [] then [] else FlushedTables(rows[..|rows| - 1]) + FlushOne(rows[|rows| - 1].0, rows[|rows| - 1].1)
  }

  function Deleted6(hooks: seq<Key>): seq<Step> {
    if hooks == [] then []
    else Deleted6(hooks[..|hooks| - 1]) + [UntilFail(DeleteRule(hooks[|hooks| - 1], JumpTo(V6.name)))]
  }

  lemma FiveTables(a: (Key, Key), b: (Key, Key), c: (Key, Key), d: (Key, Key), e: (Key, Key))
    ensures FlushedTables([a, b, c, d, e])
         == FlushOne(a.0, a.1) + FlushOne(b.0, b.1) + FlushOne(c.0, c.1) + FlushOne(d.0, d.1) + FlushOne(e.0, e.1)
  {
    assert [a, b, c, d, e][..4] == [a, b, c, d] && [a, b, c, d][..3] == [a, b, c] && [a, b, c][..2] == [a, b];
    assert [a, b][..1] == [a] && [a][..0] == [];
    assert FlushedTables([a]) == [] + FlushOne(a.0, a.1) == FlushOne(a.0, a.1);
    assert FlushedTables([a, b]) == FlushedTables([a]) + FlushOne(b.0, b.1);
    assert FlushedTables([a, b, c]) == FlushedTables([a, b]) + FlushOne(c.0, c.1);
    assert FlushedTables([a, b, c, d]) == FlushedTables([a, b, c]) + FlushOne(d.0, d.1);
  }

  lemma Three6(a: Key, b: Key, c: Key)
    ensures Deleted6([a, b, c]) == [UntilFail(DeleteRule(a, JumpTo(V6.name))),
                                    UntilFail(DeleteRule(b, JumpTo(V6.name))),
                                    UntilFail(DeleteRule(c, JumpTo(V6.name)))]
  {
    assert [a, b, c][..2] == [a, b] && [a, b][..1] == [a] && [a][..0] == [];
    assert Deleted6([a]) == [] + [UntilFail(DeleteRule(a, JumpTo(V6.name)))];
    assert Deleted6([a, b]) == Deleted6([a]) + [UntilFail(DeleteRule(b, JumpTo(V6.name)))];
  }

  method FlushTables() returns (out: seq<Step>)
    ensures out == FlushedTables(TABLES)
  {
    out := [];
    var i := 0;
    while i < |TABLES|
      invariant 0 <= i <= |TABLES|
      invariant out == FlushedTables(TABLES[..i])
    {
      var hook, chain := TABLES[i].0, TABLES[i].1;
      assert TABLES[..i + 1][..i] == TABLES[..i];
      out := out + [UntilFail(DeleteRule(hook, JumpTo(chain.name))), Tolerant(FlushChain(chain)),
                    Tolerant(DeleteChain(chain))];
      i := i + 1;
    }
    assert TABLES[..i] == TABLES;
  }

  method Delete6() returns (out: seq<Step>)
    ensures out == Deleted6(HOOKS6)
  {
    out := [];
    var i := 0;
    while i < |HOOKS6|
      invariant 0 <= i <= |HOOKS6|
      invariant out == Deleted6(HOOKS6[..i])
    {
      assert HOOKS6[..i + 1][..i] == HOOKS6[..i];
      out := out + [UntilFail(DeleteRule(HOOKS6[i], JumpTo(V6.name)))];
      i := i + 1;
    }
    assert HOOKS6[..i] == HOOKS6;
  }

  /** flushSteps: each table's jump, rules and chain, then the three IPv6 jumps, their chain and the bridge table. */
  method FlushSteps() returns (out: seq<Step>)
    ensures out == FLUSH
  {
    out := FlushTables();
    var six := Delete6();
    out := out + six;
    out := out + [Tolerant(FlushChain(V6)), Tolerant(DeleteChain(V6)), Tolerant(NftDeleteTable)];
    FiveTables(TABLES[0], TABLES[1], TABLES[2], TABLES[3], TABLES[4]);
    Three6(HOOKS6[0], HOOKS6[1], HOOKS6[2]);
  }

  // ---- a slot

  /** slotSteps: the interfaces, their settings, then the slot's rules. */
  method SlotStepsOf(i: nat, p: Params) returns (out: seq<Step>)
    ensures out == SlotSteps(i, p)
  {
    var b, r, g, u := Bridge(i), RelayTap(i), GuestTap(i), UpstreamTap(i);
    out := [Ensure(b), Do(Plumb(["sysctl", "-qw", "net.ipv6.conf." + b + ".disable_ipv6=1"]))];
    var taps := Devices([r, g, u]);
    out := out + taps;
    out := out + [Do(Plumb(["ip", "link", "set", r, "master", b])), Do(Plumb(["ip", "link", "set", g, "master", b]))];
    if i !in p.addrOK {
      out := out + [Do(Plumb(["ip", "addr", "flush", "dev", u])),
                    Do(Plumb(["ip", "addr", "add", HostAddrText(i) + "/30", "dev", u]))];
    }
    out := out + [Do(Plumb(["sysctl", "-qw", "net.ipv4.conf." + b + ".rp_filter=1",
                            "net.ipv4.conf." + u + ".rp_filter=1",
                            "net.ipv4.conf." + b + ".arp_ignore=8"]))];
    var ups := Ups([b, r, g, u]);
    out := out + ups;
    ThreeDevices(r, g, u);
    FourUps(b, r, g, u);
    assert out == SlotLinks(i, p);
    var rules := SlotRuleSteps(i, p);
    SlotParts(SlotLinks(i, p), NftAppends("forward", NftRules(i)), Appends(IN, InRules(i)),
              Appends(FWD, FwdRules(i, p)), Appends(OUT, OutRules(i, p)), Appends(RAW, RawRules(i)));
    out := out + rules;
  }

  lemma SlotParts(a: seq<Step>, b: seq<Step>, c: seq<Step>, d: seq<Step>, e: seq<Step>, f: seq<Step>)
    ensures a + (b + c + d + e + f) == a + b + c + d + e + f
  {
  }

  function DevicesOf(names: seq<string>): seq<Step> {
    if names == [] then [] else DevicesOf(names[..|names| - 1]) + Device(names[|names| - 1])
  }

  function Up(name: string): Step {
    Do(Plumb(["ip", "link", "set", name, "up"]))
  }

  function UpsOf(names: seq<string>): seq<Step> {
    if names == [] then [] else UpsOf(names[..|names| - 1]) + [Up(names[|names| - 1])]
  }

  lemma ThreeDevices(a: string, b: string, c: string)
    ensures DevicesOf([a, b, c]) == Device(a) + Device(b) + Device(c)
  {
    assert [a, b, c][..2] == [a, b] && [a, b][..1] == [a] && [a][..0] == [];
    assert DevicesOf([a]) == [] + Device(a) == Device(a);
    assert DevicesOf([a, b]) == DevicesOf([a]) + Device(b);
  }

  lemma FourUps(a: string, b: string, c: string, d: string)
    ensures UpsOf([a, b, c, d]) == [Up(a), Up(b), Up(c), Up(d)]
  {
    assert [a, b, c, d][..3] == [a, b, c] && [a, b, c][..2] == [a, b] && [a, b][..1] == [a] && [a][..0] == [];
    assert UpsOf([a]) == [] + [Up(a)];
    assert UpsOf([a, b]) == UpsOf([a]) + [Up(b)];
    assert UpsOf([a, b, c]) == UpsOf([a, b]) + [Up(c)];
  }

  method Devices(names: seq<string>) returns (out: seq<Step>)
    ensures out == DevicesOf(names)
  {
    out := [];
    var i := 0;
    while i < |names|
      invariant 0 <= i <= |names|
      invariant out == DevicesOf(names[..i])
    {
      assert names[..i + 1][..i] == names[..i];
      out := out + [Ensure(names[i]), Do(Plumb(["sysctl", "-qw", "net.ipv6.conf." + names[i] + ".disable_ipv6=1"]))];
      i := i + 1;
    }
    assert names[..i] == names;
  }

  method Ups(names: seq<string>) returns (out: seq<Step>)
    ensures out == UpsOf(names)
  {
    out := [];
    var i := 0;
    while i < |names|
      invariant 0 <= i <= |names|
      invariant out == UpsOf(names[..i])
    {
      assert names[..i + 1][..i] == names[..i];
      out := out + [Up(names[i])];
      i := i + 1;
    }
    assert names[..i] == names;
  }

  method SlotRuleSteps(i: nat, p: Params) returns (out: seq<Step>)
    ensures out == NftAppends("forward", NftRules(i)) + Appends(IN, InRules(i)) + Appends(FWD, FwdRules(i, p))
                   + Appends(OUT, OutRules(i, p)) + Appends(RAW, RawRules(i))
  {
    var n, a, f := NftRules(i), InRules(i), FwdRules(i, p);
    var o, w := OutRules(i, p), RawRules(i);
    NftAppends2("forward", n[0], n[1]);
    Appends2(IN, a[0], a[1]);
    Appends6(FWD, f);
    Appends2(OUT, o[0], o[0]);
    Appends2(RAW, w[0], w[0]);
    assert n == [n[0], n[1]] && a == [a[0], a[1]] && o == [o[0]] && w == [w[0]];
    out := [Do(NftAddRule("forward", n[0])), Do(NftAddRule("forward", n[1])), Do(Append(IN, a[0])),
            Do(Append(IN, a[1])), Do(Append(FWD, f[0])), Do(Append(FWD, f[1])), Do(Append(FWD, f[2])),
            Do(Append(FWD, f[3])),
            Do(Append(FWD, f[4])), Do(Append(FWD, f[5])), Do(Append(OUT, o[0])), Do(Append(RAW, w[0]))];
  }

  // ---- the whole list

  method SlotLoop(p: Params) returns (out: seq<Step>)
    ensures out == AllSlots(p.slots, p)
  {
    out := [];
    var i := 0;
    while i < p.slots
      invariant 0 <= i <= p.slots
      invariant out == AllSlots(i, p)
    {
      var slot := SlotStepsOf(i, p);
      out := out + slot;
      i := i + 1;
    }
  }

  method LastRuleSteps(p: Params) returns (out: seq<Step>)
    ensures out == LastRules(p)
  {
    var o, nat0 := LAST_OUT_RULES, NatRules(p)[0];
    NftAppends2("forward", DROP_FROM_TAPS, DROP_TO_TAPS);
    Appends2(IN, DROP_FROM_TAPS, DROP_TO_TAPS);
    Appends2(FWD, DROP_FROM_TAPS, DROP_TO_TAPS);
    Appends3(OUT, o[0], o[1], o[2]);
    Appends2(NAT, nat0, nat0);
    Appends2(V6, DROP_FROM_TAPS, DROP_TO_TAPS);
    assert o == [o[0], o[1], o[2]] && NatRules(p) == [nat0];
    out := [Do(NftAddRule("forward", DROP_FROM_TAPS)), Do(NftAddRule("forward", DROP_TO_TAPS)),
            Do(Append(IN, DROP_FROM_TAPS)), Do(Append(FWD, DROP_FROM_TAPS)), Do(Append(FWD, DROP_TO_TAPS)),
            Do(Append(OUT, o[0])), Do(Append(OUT, o[1])), Do(Append(OUT, o[2])), Do(Append(NAT, nat0)),
            Do(Append(V6, DROP_FROM_TAPS)), Do(Append(V6, DROP_TO_TAPS))];
  }

  function Jumped6(hooks: seq<Key>): seq<Step> {
    if hooks == [] then [] else Jumped6(hooks[..|hooks| - 1]) + [Jump(hooks[|hooks| - 1], V6)]
  }

  method Jump6() returns (out: seq<Step>)
    ensures out == Jumped6(HOOKS6)
  {
    out := [];
    var i := 0;
    while i < |HOOKS6|
      invariant 0 <= i <= |HOOKS6|
      invariant out == Jumped6(HOOKS6[..i])
    {
      assert HOOKS6[..i + 1][..i] == HOOKS6[..i];
      out := out + [Jump(HOOKS6[i], V6)];
      i := i + 1;
    }
    assert HOOKS6[..i] == HOOKS6;
  }

  lemma ThreeJumped(a: Key, b: Key, c: Key)
    ensures Jumped6([a, b, c]) == [Jump(a, V6), Jump(b, V6), Jump(c, V6)]
  {
    assert [a, b, c][..2] == [a, b] && [a, b][..1] == [a] && [a][..0] == [];
    assert Jumped6([a]) == [] + [Jump(a, V6)];
    assert Jumped6([a, b]) == Jumped6([a]) + [Jump(b, V6)];
  }

  lemma Jumps2(a: Key, b: Key, rest: seq<Key>)
    requires HookChain(a).Some? && HookChain(b).Some? && AllHooks(rest)
    ensures AllHooks([a, b] + rest)
    ensures Jumps([a, b] + rest)
         == [Do(InsertFirst(a, JumpTo(HookChain(a).value))), Do(InsertFirst(b, JumpTo(HookChain(b).value)))]
            + Jumps(rest)
  {
    assert [a, b] + rest == [a] + ([b] + rest);
    JumpsCons(b, rest);
    JumpsCons(a, [b] + rest);
  }

  lemma AllJumps()
    ensures ALL_JUMPS == [Jump(HOOKS[0], IN), Jump(HOOKS[1], FWD), Jump(HOOKS[2], OUT), Jump(HOOKS[3], RAW),
                          Jump(HOOKS[4], NAT), Jump(HOOKS[5], V6), Jump(HOOKS[6], V6), Jump(HOOKS[7], V6)]
  {
    var h := HOOKS;
    var r6: seq<Key> := [h[6], h[7]] + [];
    var r4 := [h[4], h[5]] + r6;
    var r2 := [h[2], h[3]] + r4;
    assert h == [h[0], h[1]] + r2;
    Jumps2(h[6], h[7], []);
    Jumps2(h[4], h[5], r6);
    Jumps2(h[2], h[3], r4);
    Jumps2(h[0], h[1], r2);
  }

  method JumpSteps() returns (out: seq<Step>)
    ensures out == ALL_JUMPS
  {
    out := [Jump(Key(Filter, "INPUT"), IN), Jump(Key(Filter, "FORWARD"), FWD), Jump(Key(Filter, "OUTPUT"), OUT),
            Jump(Key(Raw, "PREROUTING"), RAW), Jump(Key(Nat, "POSTROUTING"), NAT)];
    var six := Jump6();
    out := out + six;
    ThreeJumped(HOOKS6[0], HOOKS6[1], HOOKS6[2]);
    AllJumps();
  }

  method CreateSteps() returns (out: seq<Step>)
    ensures out == CREATE_NFT + CREATE
  {
    AllChains();
    out := [Do(NftAddTable), Do(NftAddChain("input")), Do(NftAddRule("input", DROP_FROM_TAPS)),
            Do(NftAddChain("forward")), Do(NewChain(IN)), Do(NewChain(FWD)), Do(NewChain(OUT)), Do(NewChain(RAW)),
            Do(NewChain(NAT)), Do(NewChain(V6))];
  }

  /** setupSteps, in the source's order of appends. */
  method SetupSteps(p: Params) returns (out: seq<Step>)
    ensures out == Setup(p)
  {
    out := FlushSteps();
    var create := CreateSteps();
    out := out + create;
    var slots := SlotLoop(p);
    out := out + slots;
    var last := LastRuleSteps(p);
    out := out + last;
    var jumps := JumpSteps();
    out := out + jumps;
    Grouped(FLUSH, CREATE_NFT, CREATE, slots, last, jumps);
    out := out + [Do(SetForward)];
  }

  lemma Grouped(a: seq<Step>, b: seq<Step>, c: seq<Step>, d: seq<Step>, e: seq<Step>, f: seq<Step>)
    ensures a + (b + c) + d + e + f == a + (b + (c + ((d + e) + f)))
  {
  }
}
