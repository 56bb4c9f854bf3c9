/** Which envelope senders the inbound server accepts (normalizeWhitelistedMails and onMailFrom in
    ARCHIVE/aven-mail/src/inbound-smtp.js). */
module SenderRules {
  import opened Common
  import RateLimit

  /** The library's text functions: trim, toLowerCase and domainToUnicode, which fails by answering
      nothing or by throwing. */
  datatype Text = Text(trim: string -> string, lower: string -> string, unicode: string -> Option<string>)

  /** Decoding a host name brings in no '@'. */
  ghost predicate Sane(t: Text) {
    forall d :: '@' !in d ==> '@' !in Host(t, d)
  }

  const GMAIL := "gmail.com"
  const GOOGLEMAIL := "googlemail.com"

  predicate GmailHost(d: string) {
    d == GMAIL || d == GOOGLEMAIL
  }

  // ----- Addresses -----------------------------------------------------------------------------

  /** lastIndexOf('@'). */
  function LastAt(s: string): (at: int)
    ensures -1 <= at < |s|
  {
    if s == "" then -1
    else if s[|s| - 1] == '@' then |s| - 1
    else LastAt(s[..|s| - 1])
  }

  lemma {:induction false} LastAtIsLast(s: string)
    ensures LastAt(s) >= 0 ==> s[LastAt(s)] == '@'
    ensures forall k :: LastAt(s) < k < |s| ==> s[k] != '@'
    decreases |s|
  {
    if s != "" && s[|s| - 1] != '@' {
      LastAtIsLast(s[..|s| - 1]);
      assert forall k :: 0 <= k < |s| - 1 ==> s[k] == s[..|s| - 1][k];
    }
  }

  /** Something on both sides of the last '@'. */
  predicate WellFormed(s: string) {
    0 < LastAt(s) < |s| - 1
  }

  function Local(s: string): string
    requires LastAt(s) >= 0
  {
    s[..LastAt(s)]
  }

  function Domain(s: string): string {
    s[LastAt(s) + 1..]
  }

  function Full(local: string, domain: string): string {
    local + "@" + domain
  }

  /** The address falls apart where it was put together. */
  predicate Apart(local: string, domain: string) {
    var s := Full(local, domain);
    LastAt(s) == |local| && Local(s) == local && Domain(s) == domain
  }

  lemma FullSplits(local: string, domain: string)
    requires '@' !in domain
    ensures Apart(local, domain)
  {
    var s := Full(local, domain);
    assert s[|local|] == '@';
    assert forall k :: |local| < k < |s| ==> s[k] == domain[k - |local| - 1];
    LastAtIsLast(s);
    assert s[..|local|] == local && s[|local| + 1..] == domain;
  }

  lemma SplitsFull(s: string)
    requires LastAt(s) >= 0
    ensures s == Full(Local(s), Domain(s))
  {
    LastAtIsLast(s);
  }

  function WithoutDots(s: string): string {
    if s == "" then "" else (if s[0] == '.' then "" else [s[0]]) + WithoutDots(s[1..])
  }

  function BeforePlus(s: string): string {
    if s == "" || s[0] == '+' then "" else [s[0]] + BeforePlus(s[1..])
  }

  /** a.b+tag and ab are one mailbox. */
  function Canonical(local: string): string {
    WithoutDots(BeforePlus(local))
  }

  function Host(t: Text, raw: string): string {
    var d := t.trim(t.lower(raw));
    if d == "" then d
    else match t.unicode(d)
      case Some(u) => if u == "" then d else u
      case None => d
  }

  // ----- The whitelist -------------------------------------------------------------------------

  datatype Item = Nothing | Wildcard(domain: string) | Address(local: string, domain: string)

  function ItemOf(t: Text, raw: string): Item {
    var s := t.lower(t.trim(raw));
    if s == "" then Nothing
    else if s[0] == '@' then
      var d := Host(t, t.trim(s[1..]));
      if d == "" then Nothing else Wildcard(d)
    else if WellFormed(s) then Address(Local(s), Host(t, Domain(s)))
    else Nothing
  }

  datatype Whitelist = Whitelist(addresses: set<string>, domains: set<string>, canonicalLocals: set<string>)

  ghost function Addresses(t: Text, raw: seq<string>): set<string> {
    set i | 0 <= i < |raw| && ItemOf(t, raw[i]).Address? :: Full(ItemOf(t, raw[i]).local, ItemOf(t, raw[i]).domain)
  }

  ghost function Domains(t: Text, raw: seq<string>): set<string> {
    set i | 0 <= i < |raw| && ItemOf(t, raw[i]).Wildcard? :: ItemOf(t, raw[i]).domain
  }

  predicate OnGmail(a: string) {
    LastAt(a) > 0 && GmailHost(Domain(a))
  }

  ghost function Paired(addresses: set<string>): set<string> {
    (set a | a in addresses && OnGmail(a) :: Full(Local(a), GMAIL))
    + (set a | a in addresses && OnGmail(a) :: Full(Local(a), GOOGLEMAIL))
  }

  ghost function MirroredDomains(domains: set<string>): set<string> {
    if GMAIL in domains || GOOGLEMAIL in domains then domains + {GMAIL, GOOGLEMAIL} else domains
  }

  ghost function CanonicalLocals(addresses: set<string>): set<string> {
    set a | a in addresses && OnGmail(a) :: Canonical(Local(a))
  }

  /** No whitelist at all when no entry says anything. */
  ghost function Normalized(t: Text, raw: seq<string>): Option<Whitelist> {
    var addresses, domains := Addresses(t, raw), Domains(t, raw);
    if addresses == {} && domains == {} then None
    else
      var mirrored := addresses + Paired(addresses);
      Some(Whitelist(mirrored, MirroredDomains(domains), CanonicalLocals(mirrored)))
  }

  method NormalizeWhitelistedMails(t: Text, raw: seq<string>) returns (w: Option<Whitelist>)
    ensures w == Normalized(t, raw)
  {
    var addresses: set<string>, domains: set<string> := {}, {};
    for i := 0 to |raw|
      invariant addresses == Addresses(t, raw[..i]) && domains == Domains(t, raw[..i])
    {
      GatherOne(t, raw, i);
      match ItemOf(t, raw[i]) {
        case Nothing =>
        case Wildcard(domain) => domains := domains + {domain};
        case Address(local, domain) => addresses := addresses + {Full(local, domain)};
      }
    }
    assert raw[..|raw|] == raw;
    if addresses == {} && domains == {} {
      return None;
    }
    addresses, domains := ExpandGmailGooglemailMirror(addresses, domains);
    var canonicalLocals := BuildGmailCanonicalLocalSet(addresses);
    return Some(Whitelist(addresses, domains, canonicalLocals));
  }

  lemma GatherOne(t: Text, raw: seq<string>, i: nat)
    requires i < |raw|
    ensures var item := ItemOf(t, raw[i]);
            && Addresses(t, raw[..i + 1]) ==
               Addresses(t, raw[..i]) + (if item.Address? then {Full(item.local, item.domain)} else {})
            && Domains(t, raw[..i + 1]) == Domains(t, raw[..i]) + (if item.Wildcard? then {item.domain} else {})
  {
    assert forall k :: 0 <= k < i ==> raw[..i + 1][k] == raw[..i][k];
    assert raw[..i + 1][i] == raw[i];
  }

  lemma PairedGrows(addresses: set<string>, a: string)
    ensures Paired(addresses + {a}) ==
            Paired(addresses) + if OnGmail(a) then {Full(Local(a), GMAIL), Full(Local(a), GOOGLEMAIL)} else {}
  {
  }

  lemma CanonicalLocalsGrow(addresses: set<string>, a: string)
    ensures CanonicalLocals(addresses + {a}) ==
            CanonicalLocals(addresses) + if OnGmail(a) then {Canonical(Local(a))} else {}
  {
  }

  method ExpandGmailGooglemailMirror(addresses: set<string>, domains: set<string>)
    returns (mirrored: set<string>, mirroredDomains: set<string>)
    ensures mirrored == addresses + Paired(addresses) && mirroredDomains == MirroredDomains(domains)
  {
    mirroredDomains := domains;
    if GMAIL in domains || GOOGLEMAIL in domains {
      mirroredDomains := domains + {GMAIL, GOOGLEMAIL};
    }
    var paired: set<string> := {};
    var rest := addresses;
    while rest != {}
      invariant rest <= addresses && paired == Paired(addresses - rest)
      decreases |rest|
    {
      var a :| a in rest;
      ghost var seen := addresses - rest;
      assert addresses - (rest - {a}) == seen + {a};
      PairedGrows(seen, a);
      if OnGmail(a) {
        paired := paired + {Full(Local(a), GMAIL), Full(Local(a), GOOGLEMAIL)};
      }
      rest := rest - {a};
    }
    assert addresses - rest == addresses;
    mirrored := addresses + paired;
  }

  method BuildGmailCanonicalLocalSet(addresses: set<string>) returns (locals: set<string>)
    ensures locals == CanonicalLocals(addresses)
  {
    locals := {};
    var rest := addresses;
    while rest != {}
      invariant rest <= addresses && locals == CanonicalLocals(addresses - rest)
      decreases |rest|
    {
      var a :| a in rest;
      assert addresses - (rest - {a}) == (addresses - rest) + {a};
      CanonicalLocalsGrow(addresses - rest, a);
      if OnGmail(a) {
        locals := locals + {Canonical(Local(a))};
      }
      rest := rest - {a};
    }
    assert addresses - rest == addresses;
  }

  // ----- The decision ----------------------------------------------------------------------------

  predicate EndsWith(s: string, end: string) {
    |end| <= |s| && s[|s| - |end|..] == end
  }

  /** A host or one of its subdomains. */
  predicate Under(domain: string, host: string) {
    domain == host || EndsWith(domain, "." + host)
  }

  predicate Permits(w: Whitelist, full: string) {
    || full in w.addresses
    || (exists host :: host in w.domains && Under(Domain(full), host))
    || (GmailHost(Domain(full)) && LastAt(full) > 0 && Canonical(Local(full)) in w.canonicalLocals)
  }

  datatype Reply = Accepted | SenderRequired | NotPermitted | TooMany

  function Sender(t: Text, from: Option<string>): string {
    match from case Some(a) => t.trim(t.lower(a)) case None => ""
  }

  /** The reply of the whitelist alone. */
  function Decision(t: Text, whitelist: Option<Whitelist>, from: Option<string>): Reply {
    match whitelist
    case None => Accepted
    case Some(w) =>
      var full := Sender(t, from);
      if full == "" || full == "<>" || !WellFormed(full) then SenderRequired
      else if Permits(w, full) then Accepted else NotPermitted
  }

  class Inbound {
    const text: Text
    const whitelist: Option<Whitelist>
    const limiter: RateLimit.Limiter

    constructor (t: Text, raw: seq<string>, rule: RateLimit.Rule)
      ensures text == t && whitelist == Normalized(t, raw)
      ensures fresh(limiter) && limiter.rule == rule && limiter.buckets == map[]
    {
      var w := NormalizeWhitelistedMails(t, raw);
      text, whitelist := t, w;
      limiter := new RateLimit.Limiter(rule);
    }

    /** Only a sender that the whitelist lets through takes a slot of the sending host. */
    method OnMailFrom(from: Option<string>, ip: string, now: int) returns (reply: Reply)
      modifies limiter
      ensures var q := RateLimit.Request(now, ip);
              var decision := Decision(text, whitelist, from);
              if decision != Accepted then reply == decision && limiter.buckets == old(limiter.buckets)
              else
                && reply == (if RateLimit.Admits(limiter.rule, old(limiter.buckets), q) then Accepted else TooMany)
                && limiter.buckets == RateLimit.After(limiter.rule, old(limiter.buckets), q)
    {
      if whitelist.Some? {
        var full := Sender(text, from);
        if full == "" || full == "<>" || LastAt(full) <= 0 || LastAt(full) == |full| - 1 {
          return SenderRequired;
        }
        var ok := IsPermitted(whitelist.value, full);
        if !ok {
          return NotPermitted;
        }
      }
      var slot := limiter.TakeSlot(ip, now);
      return if slot then Accepted else TooMany;
    }
  }

  method IsPermitted(w: Whitelist, full: string) returns (ok: bool)
    requires WellFormed(full)
    ensures ok == Permits(w, full)
  {
    if full in w.addresses {
      return true;
    }
    ok := MatchesWildcard(Domain(full), w.domains);
    if !ok && GmailHost(Domain(full)) {
      ok := Canonical(Local(full)) in w.canonicalLocals;
    }
  }

  method MatchesWildcard(domain: string, hosts: set<string>) returns (ok: bool)
    ensures ok <==> exists host :: host in hosts && Under(domain, host)
  {
    var rest := hosts;
    while rest != {}
      invariant rest <= hosts
      invariant forall host :: host in hosts && host !in rest ==> !Under(domain, host)
      decreases |rest|
    {
      var host :| host in rest;
      if Under(domain, host) {
        return true;
      }
      rest := rest - {host};
    }
    return false;
  }

  // ----- What an entry means -----------------------------------------------------------------------

  /** `host` is the host name `raw`: in lower case, trimmed, and decoded if the library answers something. */
  predicate Decodes(t: Text, raw: string, host: string) {
    var d := t.trim(t.lower(raw));
    host == if d != "" && t.unicode(d).Some? && t.unicode(d).value != "" then t.unicode(d).value else d
  }

  predicate IsWildcard(t: Text, entry: string, d: string, host: string) {
    entry == "@" + d && host != "" && Decodes(t, t.trim(d), host)
  }

  predicate IsAddress(t: Text, entry: string, d: string, local: string, host: string) {
    entry == Full(local, d) && local != "" && local[0] != '@' && d != "" && '@' !in d && Decodes(t, d, host)
  }

  lemma WildcardIff(t: Text, raw: string, host: string)
    ensures ItemOf(t, raw) == Wildcard(host) <==> exists d :: IsWildcard(t, t.lower(t.trim(raw)), d, host)
  {
    var s := t.lower(t.trim(raw));
    if s != "" && s[0] == '@' {
      assert s == "@" + s[1..];
      assert ItemOf(t, raw) == Wildcard(host) ==> IsWildcard(t, s, s[1..], host);
    }
    forall d | IsWildcard(t, s, d, host) ensures ItemOf(t, raw) == Wildcard(host) {
      assert s[1..] == d;
    }
  }

  lemma AddressIff(t: Text, raw: string, local: string, host: string)
    ensures ItemOf(t, raw) == Address(local, host) <==>
            exists d :: IsAddress(t, t.lower(t.trim(raw)), d, local, host)
  {
    var s := t.lower(t.trim(raw));
    if ItemOf(t, raw) == Address(local, host) {
      FoundAddress(t, s, local, host);
    }
    forall d | IsAddress(t, s, d, local, host) ensures ItemOf(t, raw) == Address(local, host) {
      AddressIsFound(t, s, d, local, host);
    }
  }

  lemma FoundAddress(t: Text, s: string, local: string, host: string)
    requires WellFormed(s) && s[0] != '@' && Local(s) == local && Host(t, Domain(s)) == host
    ensures IsAddress(t, s, Domain(s), local, host)
  {
    SplitsFull(s);
    LastAtIsLast(s);
    assert local[0] == s[0];
  }

  lemma AddressIsFound(t: Text, s: string, d: string, local: string, host: string)
    requires IsAddress(t, s, d, local, host)
    ensures WellFormed(s) && s[0] != '@' && Local(s) == local && Host(t, Domain(s)) == host
  {
    FullSplits(local, d);
    assert s[0] == local[0];
  }

  /** A sender is under a host if it is that host, or has it behind a dot. */
  lemma UnderIff(domain: string, host: string)
    ensures Under(domain, host) <==> domain == host || exists sub :: domain == sub + "." + host
  {
    if EndsWith(domain, "." + host) {
      var sub := domain[..|domain| - |host| - 1];
      assert domain == sub + ("." + host) == sub + "." + host;
    }
    if sub :| domain == sub + "." + host {
      assert domain == sub + ("." + host);
      assert domain[|domain| - |host| - 1..] == "." + host;
    }
  }

  // ----- Canonical local parts ---------------------------------------------------------------------

  lemma {:induction false} BeforePlusOf(a: string, rest: string)
    ensures BeforePlus(a + rest) == if '+' in a then BeforePlus(a) else a + BeforePlus(rest)
  {
    if a == "" {
      assert a + rest == rest;
    } else {
      assert (a + rest)[1..] == a[1..] + rest;
      BeforePlusOf(a[1..], rest);
    }
  }

  lemma {:induction false} WithoutDotsOf(a: string, rest: string)
    ensures WithoutDots(a + rest) == WithoutDots(a) + WithoutDots(rest)
  {
    if a == "" {
      assert a + rest == rest;
    } else {
      assert (a + rest)[1..] == a[1..] + rest;
      WithoutDotsOf(a[1..], rest);
    }
  }

  lemma {:induction false} PlainStays(a: string)
    requires '.' !in a && '+' !in a
    ensures BeforePlus(a) == a && WithoutDots(a) == a
  {
    if a != "" {
      PlainStays(a[1..]);
    }
  }

  /** A tag and any dot make no difference, and nothing else is dropped. */
  lemma CanonicalLaw(a: string, b: string)
    ensures Canonical(a + "+" + b) == Canonical(a)
    ensures Canonical(a + "." + b) == Canonical(a + b)
    ensures '.' !in a && '+' !in a ==> Canonical(a) == a
  {
    TagIsDropped(a, b);
    DotIsDropped(a, b);
    if '.' !in a && '+' !in a {
      PlainStays(a);
    }
  }

  lemma TagIsDropped(a: string, b: string)
    ensures BeforePlus(a + "+" + b) == BeforePlus(a)
  {
    assert a + "+" + b == a + ("+" + b) && a + "" == a;
    BeforePlusOf(a, "+" + b);
    BeforePlusOf(a, "");
  }

  lemma DotIsDropped(a: string, b: string)
    ensures Canonical(a + "." + b) == Canonical(a + b)
  {
    assert a + "." + b == a + ("." + b);
    BeforePlusOf(a, "." + b);
    BeforePlusOf(a, b);
    if '+' !in a {
      var rest := BeforePlus(b);
      assert ("." + b)[1..] == b && ("." + rest)[1..] == rest;
      WithoutDotsOf(a, "." + rest);
      WithoutDotsOf(a, rest);
    }
  }

  // ----- What a whitelist means --------------------------------------------------------------------

  /** What one entry lets in, said of the entry alone. */
  predicate Covers(item: Item, full: string)
    requires WellFormed(full)
  {
    match item
    case Nothing => false
    case Wildcard(host) =>
      Under(Domain(full), host) || (GmailHost(host) && (Under(Domain(full), GMAIL) || Under(Domain(full), GOOGLEMAIL)))
    case Address(local, host) =>
      || full == Full(local, host)
      || (GmailHost(host) && GmailHost(Domain(full)) && Canonical(local) == Canonical(Local(full)))
  }

  ghost predicate CoveredBy(t: Text, raw: seq<string>, i: int, full: string)
    requires WellFormed(full)
  {
    0 <= i < |raw| && Covers(ItemOf(t, raw[i]), full)
  }

  /** An address entry keeps its two parts apart, and its local part is not empty. */
  lemma AddressItems(t: Text, raw: string)
    requires Sane(t) && ItemOf(t, raw).Address?
    ensures Apart(ItemOf(t, raw).local, ItemOf(t, raw).domain) && ItemOf(t, raw).local != ""
  {
    var s := t.lower(t.trim(raw));
    AddressPart(t, s);
  }

  lemma AddressPart(t: Text, s: string)
    requires Sane(t) && WellFormed(s)
    ensures Apart(Local(s), Host(t, Domain(s))) && Local(s) != ""
  {
    LastAtIsLast(s);
    assert '@' !in Domain(s);
    FullSplits(Local(s), Host(t, Domain(s)));
    assert |Local(s)| == LastAt(s);
  }

  lemma MirrorOf(domains: set<string>, host: string) returns (host': string)
    requires host in MirroredDomains(domains)
    ensures host' in domains && (host' == host || (GmailHost(host) && GmailHost(host')))
  {
    if host in domains {
      host' := host;
    } else if GMAIL in domains {
      host' := GMAIL;
    } else {
      host' := GOOGLEMAIL;
    }
  }

  lemma WildcardCovers(host: string, host': string, full: string)
    requires WellFormed(full) && Under(Domain(full), host) && (host' == host || (GmailHost(host) && GmailHost(host')))
    ensures Covers(Wildcard(host'), full)
  {
  }

  /** Wildcards, with the two Gmail hosts standing for each other. */
  lemma WildcardsMean(t: Text, raw: seq<string>, full: string)
    requires WellFormed(full)
    ensures (exists host :: host in MirroredDomains(Domains(t, raw)) && Under(Domain(full), host))
       <==> (exists i :: CoveredBy(t, raw, i, full) && ItemOf(t, raw[i]).Wildcard?)
  {
    var domains := Domains(t, raw);
    if host :| host in MirroredDomains(domains) && Under(Domain(full), host) {
      var host' := MirrorOf(domains, host);
      var i :| 0 <= i < |raw| && ItemOf(t, raw[i]) == Wildcard(host');
      WildcardCovers(host, host', full);
      assert CoveredBy(t, raw, i, full);
    }
    if i :| CoveredBy(t, raw, i, full) && ItemOf(t, raw[i]).Wildcard? {
      var host := ItemOf(t, raw[i]).domain;
      assert host in domains;
      assert host in MirroredDomains(domains);
    }
  }

  lemma CanonicalLocalsMean(t: Text, raw: seq<string>, local: string)
    requires Sane(t)
    ensures var addresses := Addresses(t, raw);
            Canonical(local) in CanonicalLocals(addresses + Paired(addresses)) <==>
            exists i :: 0 <= i < |raw| && ItemOf(t, raw[i]).Address? && GmailHost(ItemOf(t, raw[i]).domain)
                        && Canonical(ItemOf(t, raw[i]).local) == Canonical(local)
  {
    var addresses := Addresses(t, raw);
    if Canonical(local) in CanonicalLocals(addresses + Paired(addresses)) {
      var a :| a in addresses + Paired(addresses) && OnGmail(a) && Canonical(Local(a)) == Canonical(local);
      var b := PairOf(addresses, a);
      var i :| 0 <= i < |raw| && ItemOf(t, raw[i]).Address?
               && Full(ItemOf(t, raw[i]).local, ItemOf(t, raw[i]).domain) == b;
      AddressItems(t, raw[i]);
    }
    if i :| 0 <= i < |raw| && ItemOf(t, raw[i]).Address? && GmailHost(ItemOf(t, raw[i]).domain)
            && Canonical(ItemOf(t, raw[i]).local) == Canonical(local) {
      AddressItems(t, raw[i]);
      var a := Full(ItemOf(t, raw[i]).local, ItemOf(t, raw[i]).domain);
      assert a in addresses && OnGmail(a);
    }
  }

  /** Every address after mirroring stems from a listed one with the same local part. */
  lemma PairOf(addresses: set<string>, a: string) returns (b: string)
    requires a in addresses + Paired(addresses)
    ensures b in addresses
    ensures a == b || (LastAt(a) > 0 && LastAt(b) > 0 && Local(a) == Local(b) && OnGmail(b) && GmailHost(Domain(a)))
  {
    if a in addresses {
      b := a;
    } else {
      b :| b in addresses && OnGmail(b) && (a == Full(Local(b), GMAIL) || a == Full(Local(b), GOOGLEMAIL));
      OtherHost(b, if a == Full(Local(b), GMAIL) then GMAIL else GOOGLEMAIL);
    }
  }

  lemma OtherHost(b: string, host': string)
    requires OnGmail(b) && GmailHost(host')
    ensures var a := Full(Local(b), host');
            LastAt(a) > 0 && Local(a) == Local(b) && Domain(a) == host'
  {
    FullSplits(Local(b), host');
    assert |Local(b)| == LastAt(b);
  }

  /** Main result.  A whitelist lets in exactly what its entries cover one by one. */
  lemma PermissionIsExact(t: Text, raw: seq<string>, full: string)
    requires Sane(t) && WellFormed(full) && Normalized(t, raw).Some?
    ensures Permits(Normalized(t, raw).value, full) <==> exists i :: CoveredBy(t, raw, i, full)
  {
    var addresses := Addresses(t, raw);
    var w := Normalized(t, raw).value;
    WildcardsMean(t, raw, full);
    CanonicalLocalsMean(t, raw, Local(full));
    SplitsFull(full);
    if full in w.addresses {
      var b := PairOf(addresses, full);
      var i :| 0 <= i < |raw| && ItemOf(t, raw[i]).Address?
               && Full(ItemOf(t, raw[i]).local, ItemOf(t, raw[i]).domain) == b;
      AddressItems(t, raw[i]);
      assert CoveredBy(t, raw, i, full);
    }
    if GmailHost(Domain(full)) && Canonical(Local(full)) in w.canonicalLocals {
      var i :| 0 <= i < |raw| && ItemOf(t, raw[i]).Address? && GmailHost(ItemOf(t, raw[i]).domain)
               && Canonical(ItemOf(t, raw[i]).local) == Canonical(Local(full));
      assert CoveredBy(t, raw, i, full);
    }
    if i :| CoveredBy(t, raw, i, full) && ItemOf(t, raw[i]).Address? {
      assert Full(ItemOf(t, raw[i]).local, ItemOf(t, raw[i]).domain) in addresses;
    }
  }

  /** The three wildcards that open the Gmail hosts. */
  predicate OpensGmail(host: string) {
    GmailHost(host) || host == "com"
  }

  lemma OnlyComIsAbove(domain: string, host: string)
    requires GmailHost(domain)
    ensures Under(domain, host) <==> host == domain || host == "com"
  {
    if EndsWith(domain, "." + host) {
      var k := |domain| - |host| - 1;
      assert domain[k] == (domain[k..])[0] == '.';
      assert domain[k..][1..] == domain[k + 1..];
      assert ("." + host)[1..] == host;
      DotAt(domain, k);
    } else if host == "com" {
      DotAt(domain, |domain| - 4);
    }
  }

  lemma DotAt(domain: string, k: nat)
    requires GmailHost(domain) && k < |domain|
    ensures domain[k] == '.' <==> k == |domain| - 4
    ensures domain[|domain| - 4..] == "." + "com" && domain[|domain| - 3..] == "com"
  {
  }

  /** What one entry means for a sender on a Gmail host: nothing but the canonical local part is looked at. */
  predicate CoversGmail(item: Item, canonical: string) {
    match item
    case Nothing => false
    case Wildcard(host) => OpensGmail(host)
    case Address(local, host) => GmailHost(host) && Canonical(local) == canonical
  }

  lemma GmailEntries(t: Text, raw: string, full: string)
    requires Sane(t) && WellFormed(full) && GmailHost(Domain(full))
    ensures Covers(ItemOf(t, raw), full) <==> CoversGmail(ItemOf(t, raw), Canonical(Local(full)))
  {
    match ItemOf(t, raw) {
      case Nothing =>
      case Wildcard(host) =>
        OnlyComIsAbove(Domain(full), host);
      case Address(local, host) =>
        AddressItems(t, raw);
    }
  }

  /** Main result.  On either Gmail host a sender is let in exactly when some entry is a wildcard that opens
      Gmail or an address on a Gmail host with the same dot-free, tag-free local part. */
  lemma GmailPermissionIsCanonical(t: Text, raw: seq<string>, full: string)
    requires Sane(t) && WellFormed(full) && GmailHost(Domain(full))
    ensures Normalized(t, raw).Some? ==>
              (Permits(Normalized(t, raw).value, full) <==>
               exists i :: 0 <= i < |raw| && CoversGmail(ItemOf(t, raw[i]), Canonical(Local(full))))
  {
    if Normalized(t, raw).Some? {
      PermissionIsExact(t, raw, full);
      forall i | 0 <= i < |raw|
        ensures CoveredBy(t, raw, i, full) <==> CoversGmail(ItemOf(t, raw[i]), Canonical(Local(full)))
      {
        GmailEntries(t, raw[i], full);
      }
    }
  }

  /** Either host, dots and tags make no difference to the reply, whatever the whitelist. */
  lemma SpellingsAgree(t: Text, raw: seq<string>, from: string, from': string)
    requires Sane(t)
    requires var a, b := Sender(t, Some(from)), Sender(t, Some(from'));
             && WellFormed(a) && WellFormed(b) && GmailHost(Domain(a)) && GmailHost(Domain(b))
             && Canonical(Local(a)) == Canonical(Local(b))
    ensures Decision(t, Normalized(t, raw), Some(from)) == Decision(t, Normalized(t, raw), Some(from'))
  {
    var a, b := Sender(t, Some(from)), Sender(t, Some(from'));
    BracketsAreNoAddress(a);
    BracketsAreNoAddress(b);
    GmailPermissionIsCanonical(t, raw, a);
    GmailPermissionIsCanonical(t, raw, b);
  }

  /** The reply in terms of the entries.  In particular a whitelist none of whose entries says anything lets
      everybody in, the empty sender included. */
  lemma DecisionIsExact(t: Text, raw: seq<string>, from: Option<string>)
    requires Sane(t)
    ensures var full := Sender(t, from);
            Decision(t, Normalized(t, raw), from) ==
            if forall i :: 0 <= i < |raw| ==> ItemOf(t, raw[i]).Nothing? then Accepted
            else if !WellFormed(full) then SenderRequired
            else if exists i :: CoveredBy(t, raw, i, full) then Accepted
            else NotPermitted
  {
    var full := Sender(t, from);
    NoWhitelist(t, raw);
    BracketsAreNoAddress(full);
    if WellFormed(full) && Normalized(t, raw).Some? {
      PermissionIsExact(t, raw, full);
    }
  }

  lemma BracketsAreNoAddress(full: string)
    ensures full == "" || full == "<>" ==> !WellFormed(full)
  {
  }

  lemma NoWhitelist(t: Text, raw: seq<string>)
    ensures Normalized(t, raw).None? <==> forall i :: 0 <= i < |raw| ==> ItemOf(t, raw[i]).Nothing?
  {
    if i :| 0 <= i < |raw| && !ItemOf(t, raw[i]).Nothing? {
      assert ItemOf(t, raw[i]).Wildcard? ==> ItemOf(t, raw[i]).domain in Domains(t, raw);
      assert ItemOf(t, raw[i]).Address? ==>
          Full(ItemOf(t, raw[i]).local, ItemOf(t, raw[i]).domain) in Addresses(t, raw);
    } else {
      assert Addresses(t, raw) == {} && Domains(t, raw) == {};
    }
  }

  /** For instance, a whitelist whose only entry lacks its '@' admits the empty sender. */
  lemma MalformedWhitelistAdmitsAll()
    ensures var t := Text(s => s, s => s, s => Some(s));
            Decision(t, Normalized(t, ["nobody"]), None) == Accepted
  {
    var t := Text(s => s, s => s, s => Some(s));
    LastAtIsLast("nobody");
    assert ItemOf(t, "nobody") == Nothing;
    NoWhitelist(t, ["nobody"]);
  }
}
