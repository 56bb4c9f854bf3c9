/** Renaming of service hosts while a runtime is prepared (deploy/runtime/prepare.py).

    The source renames one service after another: a value that is a service name,
    and every host that stands after `//` or `@` and before `:` or `/`.  The
    reference definition renames all of them in a single scan. */
module HostRewrite {
  import opened Common

  /** What precedes the current position, as far as the lookbehinds can tell. */
  datatype Before = Plain | Slash | DoubleSlash | AtSign

  function Next(b: Before, c: char): Before {
    if c == '@' then AtSign
    else if c == '/' then (if b == Slash || b == DoubleSlash then DoubleSlash else Slash)
    else Plain
  }

  predicate Ends(c: char) {
    c == ':' || c == '/'
  }

  /** A name that can stand as a host: no separator of a URL inside. */
  predicate Host(s: string) {
    s != "" && forall k :: 0 <= k < |s| ==> s[k] != '/' && s[k] != '@' && s[k] != ':'
  }

  predicate Hosts(names: set<string>) {
    forall n :: n in names ==> Host(n)
  }

  function Renamed(runtime: string, name: string): string {
    runtime + "-" + name
  }

  // ----- One substitution of the source -----------------------------------------------

  /** The pattern of one service name, lookahead included. */
  predicate Matches(s: string, name: string) {
    |s| > |name| && s[..|name|] == name && Ends(s[|name|])
  }

  /** re.sub with the lookbehind `behind`: left to right, over the original text. */
  function Substitute(b: Before, s: string, behind: Before, name: string, runtime: string): string
    requires name != ""
    decreases |s|
  {
    if s == "" then ""
    else if b == behind && Matches(s, name) then
      Renamed(runtime, name) + Substitute(Plain, s[|name|..], behind, name, runtime)
    else [s[0]] + Substitute(Next(b, s[0]), s[1..], behind, name, runtime)
  }

  // ----- The simultaneous renaming ------------------------------------------------------

  /** A host renamed behind a lookbehind. */
  datatype Rule = Rule(behind: Before, name: string)

  predicate Usable(rules: set<Rule>) {
    forall r :: r in rules ==> (r.behind == DoubleSlash || r.behind == AtSign) && Host(r.name)
  }

  /** The text up to the next `:` or `/`, if there is one. */
  function Token(s: string): Option<string> {
    if s == "" then None
    else if Ends(s[0]) then Some("")
    else match Token(s[1..])
      case None => None
      case Some(t) => Some([s[0]] + t)
  }

  function RenameAll(b: Before, s: string, rules: set<Rule>, runtime: string): string
    decreases |s|
  {
    if s == "" then ""
    else
      var t := Token(s);
      if t.Some? && 0 < |t.value| <= |s| && Rule(b, t.value) in rules then
        Renamed(runtime, t.value) + RenameAll(Plain, s[|t.value|..], rules, runtime)
      else [s[0]] + RenameAll(Next(b, s[0]), s[1..], rules, runtime)
  }

  function RulesFor(names: set<string>): set<Rule> {
    (set n | n in names :: Rule(DoubleSlash, n)) + (set n | n in names :: Rule(AtSign, n))
  }

  function Elements(names: seq<string>): set<string> {
    set n | n in names
  }

  function RenameString(s: string, names: set<string>, runtime: string): string {
    if s in names then Renamed(runtime, s) else RenameAll(Plain, s, RulesFor(names), runtime)
  }

  // ----- Tokens and scanning ------------------------------------------------------------

  lemma {:induction false} TokenIsMatch(s: string, name: string)
    requires Host(name)
    ensures Matches(s, name) <==> Token(s) == Some(name)
    decreases |s|
  {
    if s != "" && !Ends(s[0]) {
      if |name| == 1 {
        assert Token(s[1..]) == Some("") <==> s[1..] != "" && Ends(s[1]);
        TokenSplits(s);
      } else {
        TokenIsMatch(s[1..], name[1..]);
        TokenSplits(s);
        if Matches(s, name) {
          assert s[1..][..|name| - 1] == s[..|name|][1..];
        }
        if Matches(s[1..], name[1..]) && s[0] == name[0] {
          assert s[..|name|] == [s[0]] + s[1..][..|name| - 1];
        }
      }
    }
  }

  lemma {:induction false} TokenSplits(s: string)
    ensures Token(s).Some? ==>
              var n := Token(s).value; |n| < |s| && s[..|n|] == n && Ends(s[|n|])
    decreases |s|
  {
    if s != "" && !Ends(s[0]) {
      TokenSplits(s[1..]);
      var t := Token(s[1..]);
      if t.Some? {
        assert s[..|t.value| + 1] == [s[0]] + s[1..][..|t.value|];
      }
    }
  }

  /** A scan passes over characters that arm no lookbehind. */
  lemma {:induction false} SkipWord(w: string, rest: string, rules: set<Rule>, runtime: string)
    requires Usable(rules) && forall k :: 0 <= k < |w| ==> w[k] != '/' && w[k] != '@'
    ensures RenameAll(Plain, w + rest, rules, runtime) == w + RenameAll(Plain, rest, rules, runtime)
    decreases |w|
  {
    if w == "" {
      assert w + rest == rest;
    } else {
      assert (w + rest)[1..] == w[1..] + rest;
      SkipWord(w[1..], rest, rules, runtime);
      assert w == [w[0]] + w[1..];
      assert [w[0]] + (w[1..] + RenameAll(Plain, rest, rules, runtime)) == w + RenameAll(Plain, rest, rules, runtime);
    }
  }

  /** In an unarmed position renaming neither creates nor destroys a host token. */
  lemma {:induction false} PlainToken(s: string, rules: set<Rule>, runtime: string, m: string)
    requires Usable(rules) && forall k :: 0 <= k < |m| ==> m[k] != '@'
    ensures Token(RenameAll(Plain, s, rules, runtime)) == Some(m) <==> Token(s) == Some(m)
    decreases |s|
  {
    if s != "" {
      var u := RenameAll(Next(Plain, s[0]), s[1..], rules, runtime);
      assert RenameAll(Plain, s, rules, runtime) == [s[0]] + u;
      assert ([s[0]] + u)[1..] == u;
      if s[0] != '@' && !Ends(s[0]) && m != "" {
        PlainToken(s[1..], rules, runtime, m[1..]);
        assert m == [m[0]] + m[1..];
      }
    }
  }

  // ----- Renaming after renaming -----------------------------------------------------------

  /** No renamed host is itself a name to rename. */
  predicate NoClash(rules: set<Rule>, others: set<Rule>, runtime: string) {
    forall r, q :: r in rules && q in others ==> Renamed(runtime, r.name) != q.name
  }

  lemma RenamedIsHost(runtime: string, name: string)
    requires Host(runtime) && Host(name)
    ensures Host(Renamed(runtime, name))
  {
    var s := Renamed(runtime, name);
    forall k | 0 <= k < |s| ensures s[k] != '/' && s[k] != '@' && s[k] != ':' {
      assert s[k] == if k < |runtime| then runtime[k] else if k == |runtime| then '-' else name[k - |runtime| - 1];
    }
  }

  /** The text behind a host begins with the separator that ended it, before and after renaming. */
  lemma HostToken(w: string, rest: string)
    requires Host(w) && rest != "" && Ends(rest[0])
    ensures Token(w + rest) == Some(w)
  {
    TokenIsMatch(w + rest, w);
    assert (w + rest)[..|w|] == w && (w + rest)[|w|] == rest[0];
  }

  lemma TakenBranch(b: Before, s: string, n: string, rules: set<Rule>, runtime: string)
    requires Host(n) && Token(s) == Some(n) && Rule(b, n) in rules
    ensures |n| < |s| && RenameAll(b, s, rules, runtime) ==
            Renamed(runtime, n) + RenameAll(Plain, s[|n|..], rules, runtime)
  {
    TokenSplits(s);
  }

  /** Scanning over a host that is not renamed here. */
  lemma PassHost(b: Before, w: string, rest: string, rules: set<Rule>, runtime: string)
    requires Usable(rules) && Host(w) && rest != "" && Ends(rest[0]) && Rule(b, w) !in rules
    ensures RenameAll(b, w + rest, rules, runtime) == w + RenameAll(Plain, rest, rules, runtime)
  {
    HostToken(w, rest);
    assert (w + rest)[1..] == w[1..] + rest;
    SkipWord(w[1..], rest, rules, runtime);
    var tail := RenameAll(Plain, rest, rules, runtime);
    assert [w[0]] + (w[1..] + tail) == w + tail;
  }

  /** What follows a host keeps its first character. */
  lemma RestBegins(rest: string, rules: set<Rule>, runtime: string)
    requires Usable(rules) && rest != "" && Ends(rest[0])
    ensures var u := RenameAll(Plain, rest, rules, runtime); u != "" && u[0] == rest[0]
  {
  }

  /** Two renamings in sequence are one simultaneous renaming: nothing is renamed twice. */
  lemma {:induction false} RenamingsCompose(b: Before, s: string, rules: set<Rule>, others: set<Rule>, runtime: string)
    requires Usable(rules) && Usable(others) && Host(runtime) && NoClash(rules, others, runtime)
    ensures RenameAll(b, RenameAll(b, s, rules, runtime), others, runtime) == RenameAll(b, s, rules + others, runtime)
    decreases |s|
  {
    if s != "" {
      var token := Token(s);
      TokenSplits(s);
      if token.Some? && token.value != "" && Rule(b, token.value) in rules {
        ComposeRenamed(b, s, token.value, rules, others, runtime);
      } else if token.Some? && token.value != "" && Rule(b, token.value) in others {
        ComposeLater(b, s, token.value, rules, others, runtime);
      } else {
        ComposeNeither(b, s, rules, others, runtime);
      }
    }
  }

  lemma ComposeRenamed(b: Before, s: string, n: string, rules: set<Rule>, others: set<Rule>, runtime: string)
    requires Usable(rules) && Usable(others) && Host(runtime) && NoClash(rules, others, runtime)
    requires Token(s) == Some(n) && n != "" && Rule(b, n) in rules
    ensures RenameAll(b, RenameAll(b, s, rules, runtime), others, runtime) == RenameAll(b, s, rules + others, runtime)
    decreases |s|, 0
  {
    TokenSplits(s);
    var rest, w := s[|n|..], Renamed(runtime, n);
    TakenBranch(b, s, n, rules, runtime);
    TakenBranch(b, s, n, rules + others, runtime);
    RestBegins(rest, rules, runtime);
    RenamedIsHost(runtime, n);
    var used := Rule(b, n);
    assert used in rules && (Rule(b, w) in others ==> Renamed(runtime, used.name) != Rule(b, w).name);
    PassHost(b, w, RenameAll(Plain, rest, rules, runtime), others, runtime);
    RenamingsCompose(Plain, rest, rules, others, runtime);
  }

  lemma ComposeLater(b: Before, s: string, n: string, rules: set<Rule>, others: set<Rule>, runtime: string)
    requires Usable(rules) && Usable(others) && Host(runtime) && NoClash(rules, others, runtime)
    requires Token(s) == Some(n) && n != "" && Rule(b, n) !in rules && Rule(b, n) in others
    ensures RenameAll(b, RenameAll(b, s, rules, runtime), others, runtime) == RenameAll(b, s, rules + others, runtime)
    decreases |s|, 0
  {
    TokenSplits(s);
    var rest := s[|n|..];
    assert s == n + rest;
    PassHost(b, n, rest, rules, runtime);
    var u := RenameAll(Plain, rest, rules, runtime);
    RestBegins(rest, rules, runtime);
    HostToken(n, u);
    TakenBranch(b, n + u, n, others, runtime);
    assert (n + u)[|n|..] == u;
    TakenBranch(b, s, n, rules + others, runtime);
    RenamingsCompose(Plain, rest, rules, others, runtime);
  }

  /** A host at the front of the scanned text was already at the front of the original. */
  lemma HostIsKept(b: Before, s: string, rules: set<Rule>, runtime: string, m: string)
    requires Usable(rules) && s != "" && Host(m)
    requires Token([s[0]] + RenameAll(Next(b, s[0]), s[1..], rules, runtime)) == Some(m)
    ensures Token(s) == Some(m)
  {
    var u := RenameAll(Next(b, s[0]), s[1..], rules, runtime);
    assert ([s[0]] + u)[1..] == u && m[0] == s[0] && m == [m[0]] + m[1..];
    PlainToken(s[1..], rules, runtime, m[1..]);
  }

  lemma ComposeNeither(b: Before, s: string, rules: set<Rule>, others: set<Rule>, runtime: string)
    requires Usable(rules) && Usable(others) && Host(runtime) && NoClash(rules, others, runtime) && s != ""
    requires forall n :: Token(s) == Some(n) && n != "" ==> Rule(b, n) !in rules && Rule(b, n) !in others
    ensures RenameAll(b, RenameAll(b, s, rules, runtime), others, runtime) == RenameAll(b, s, rules + others, runtime)
    decreases |s|, 0
  {
    TokenSplits(s);
    var u := RenameAll(Next(b, s[0]), s[1..], rules, runtime);
    assert RenameAll(b, s, rules, runtime) == [s[0]] + u;
    assert ([s[0]] + u)[1..] == u;
    forall m | Host(m) && Token([s[0]] + u) == Some(m) ensures Token(s) == Some(m) {
      HostIsKept(b, s, rules, runtime, m);
    }
    RenamingsCompose(Next(b, s[0]), s[1..], rules, others, runtime);
  }

  // ----- The services of a runtime ---------------------------------------------------------

  const SERVICES := [
    "database", "database-roles", "database-access", "artifact-provisioner-access", "artifact-store-provisioner",
    "artifact-store", "platform-provisioner", "intent-service", "actor-runner", "backup", "restore"]

  /** `long` ends with a dash and `short`. */
  predicate DashSuffix(long: string, short: string) {
    |long| > |short| && long[|long| - |short| - 1] == '-' && long[|long| - |short|..] == short
  }

  lemma RenamedHasSuffix(runtime: string, name: string)
    ensures DashSuffix(Renamed(runtime, name), name)
  {
  }

  lemma DatabasesDoNotClash(i: nat, k: nat)
    requires i < 2 && k < |SERVICES|
    ensures Host(SERVICES[i]) && !DashSuffix(SERVICES[i], SERVICES[k])
  {
    if i == 0 {
    } else {
    }
  }

  lemma AccessesDoNotClash(i: nat, k: nat)
    requires 2 <= i < 4 && k < |SERVICES|
    ensures Host(SERVICES[i]) && !DashSuffix(SERVICES[i], SERVICES[k])
  {
    if i == 2 {
    } else {
    }
  }

  lemma StoreProvisionerDoesNotClash(k: nat)
    requires k < |SERVICES|
    ensures Host(SERVICES[4]) && !DashSuffix(SERVICES[4], SERVICES[k])
  {
  }

  lemma ArtifactStoreDoesNotClash(k: nat)
    requires k < |SERVICES|
    ensures Host(SERVICES[5]) && !DashSuffix(SERVICES[5], SERVICES[k])
  {
  }

  lemma PlatformProvisionerDoesNotClash(k: nat)
    requires k < |SERVICES|
    ensures Host(SERVICES[6]) && !DashSuffix(SERVICES[6], SERVICES[k])
  {
  }

  lemma IntentServiceDoesNotClash(k: nat)
    requires k < |SERVICES|
    ensures Host(SERVICES[7]) && !DashSuffix(SERVICES[7], SERVICES[k])
  {
    assert k == 10 ==> SERVICES[7][7] == 's' && SERVICES[k][0] == 'r';
  }

  lemma ActorRunnerDoesNotClash(k: nat)
    requires k < |SERVICES|
    ensures Host(SERVICES[8]) && !DashSuffix(SERVICES[8], SERVICES[k])
  {
  }

  lemma BackupDoesNotClash(k: nat)
    requires k < |SERVICES|
    ensures Host(SERVICES[9]) && !DashSuffix(SERVICES[9], SERVICES[k])
  {
  }

  lemma RestoreDoesNotClash(k: nat)
    requires k < |SERVICES|
    ensures Host(SERVICES[10]) && !DashSuffix(SERVICES[10], SERVICES[k])
  {
  }

  /** No service name is a prefixed form of another, although some are prefixes of others. */
  lemma ServicesDoNotClash(i: nat, k: nat)
    requires i < |SERVICES| && k < |SERVICES|
    ensures Host(SERVICES[i]) && !DashSuffix(SERVICES[i], SERVICES[k])
  {
    if i < 2 {
      DatabasesDoNotClash(i, k);
    } else if i < 4 {
      AccessesDoNotClash(i, k);
    } else if i == 4 {
      StoreProvisionerDoesNotClash(k);
    } else if i == 5 {
      ArtifactStoreDoesNotClash(k);
    } else if i == 6 {
      PlatformProvisionerDoesNotClash(k);
    } else if i == 7 {
      IntentServiceDoesNotClash(k);
    } else if i == 8 {
      ActorRunnerDoesNotClash(k);
    } else if i == 9 {
      BackupDoesNotClash(k);
    } else {
      RestoreDoesNotClash(k);
    }
  }

  /** So the renaming laws apply to them under every runtime identifier. */
  lemma ServicesAreGoodNames(runtime: string)
    requires Host(runtime)
    ensures GoodNames(Elements(SERVICES), runtime)
  {
    forall n | n in Elements(SERVICES) ensures Host(n) {
      var i :| 0 <= i < |SERVICES| && SERVICES[i] == n;
      ServicesDoNotClash(i, i);
    }
    forall n, m | n in Elements(SERVICES) && m in Elements(SERVICES) ensures Renamed(runtime, n) != m {
      var i :| 0 <= i < |SERVICES| && SERVICES[i] == m;
      var k :| 0 <= k < |SERVICES| && SERVICES[k] == n;
      ServicesDoNotClash(i, k);
      RenamedHasSuffix(runtime, n);
    }
  }

  // ----- The source's loop ---------------------------------------------------------------

  /** One substitution of the source is the renaming by a single rule. */
  lemma {:induction false} SubstituteIsRename(b: Before, s: string, rule: Rule, runtime: string)
    requires Usable({rule})
    ensures Substitute(b, s, rule.behind, rule.name, runtime) == RenameAll(b, s, {rule}, runtime)
    decreases |s|
  {
    if s != "" {
      TokenIsMatch(s, rule.name);
      TokenSplits(s);
      if b == rule.behind && Matches(s, rule.name) {
        SubstituteIsRename(Plain, s[|rule.name|..], rule, runtime);
      } else {
        SubstituteIsRename(Next(b, s[0]), s[1..], rule, runtime);
      }
    }
  }

  /** Text without `/` and `@` is left alone; text with one keeps one. */
  lemma {:induction false} PlainTextUnchanged(b: Before, s: string, rules: set<Rule>, runtime: string, name: string)
    requires Usable(rules) && Host(runtime) && Host(name) && b != AtSign && b != DoubleSlash
    ensures RenameAll(b, s, rules, runtime) == name <==> s == name
  {
    if forall k :: 0 <= k < |s| ==> s[k] != '/' && s[k] != '@' {
      if s != "" {
        assert [s[0]] + s[1..] == s && s[1..] + "" == s[1..];
        SkipWord(s[1..], "", rules, runtime);
        assert [s[0]] + (s[1..] + "") == s;
      }
    } else {
      var k :| 0 <= k < |s| && (s[k] == '/' || s[k] == '@');
      SeparatorStays(b, s, rules, runtime, k);
    }
  }

  lemma {:induction false} SeparatorStays(b: Before, s: string, rules: set<Rule>, runtime: string, k: nat)
    requires Usable(rules) && k < |s| && (s[k] == '/' || s[k] == '@')
    ensures s[k] in RenameAll(b, s, rules, runtime)
    decreases |s|
  {
    TokenSplits(s);
    var token := Token(s);
    if token.Some? && token.value != "" && Rule(b, token.value) in rules {
      forall i | 0 <= i < |token.value| ensures s[i] == token.value[i] {
        assert s[..|token.value|][i] == s[i];
      }
      SeparatorStays(Plain, s[|token.value|..], rules, runtime, k - |token.value|);
    } else if k > 0 {
      SeparatorStays(Next(b, s[0]), s[1..], rules, runtime, k - 1);
    }
  }

  predicate GoodNames(names: set<string>, runtime: string) {
    && Host(runtime) && Hosts(names)
    && forall n, m :: n in names && m in names ==> Renamed(runtime, n) != m
  }

  lemma RulesAreUsable(names: set<string>, others: set<string>, runtime: string)
    requires GoodNames(names + others, runtime)
    ensures Usable(RulesFor(names)) && NoClash(RulesFor(names), RulesFor(others), runtime)
  {
  }

  lemma RulesUnion(names: set<string>, others: set<string>)
    ensures RulesFor(names) + RulesFor(others) == RulesFor(names + others)
    ensures forall n :: RulesFor({n}) == {Rule(DoubleSlash, n), Rule(AtSign, n)}
  {
    forall r ensures r in RulesFor(names) + RulesFor(others) <==> r in RulesFor(names + others) {
      assert r in RulesFor(names + others) <==>
             r.name in names + others && (r.behind == DoubleSlash || r.behind == AtSign) by {
        RuleOf(r, names + others);
      }
      RuleOf(r, names);
      RuleOf(r, others);
    }
  }

  lemma RuleOf(r: Rule, names: set<string>)
    ensures r in RulesFor(names) <==> r.name in names && (r.behind == DoubleSlash || r.behind == AtSign)
  {
  }

  /** The source's nested function on strings: one service name after another. */
  method Rewrite(value: string, names: seq<string>, runtime: string) returns (r: string)
    requires GoodNames(Elements(names), runtime)
    ensures r == RenameString(value, Elements(names), runtime)
  {
    r := value;
    ghost var all := Elements(names);
    RenameNothing(Plain, value, runtime);
    assert Elements(names[..0]) == {};
    for k := 0 to |names|
      invariant forall n :: n in names[..k] ==> value != n
      invariant r == RenameAll(Plain, value, RulesFor(Elements(names[..k])), runtime)
    {
      ghost var done := Elements(names[..k]);
      assert done + {names[k]} <= all;
      RulesAreUsable(done, {names[k]}, runtime);
      PlainTextUnchanged(Plain, value, RulesFor(done), runtime, names[k]);
      if r == names[k] {
        return Renamed(runtime, names[k]);
      }
      OneMoreName(value, r, done, names[k], runtime);
      r := Substitute(Plain, r, DoubleSlash, names[k], runtime);
      r := Substitute(Plain, r, AtSign, names[k], runtime);
      assert names[..k + 1] == names[..k] + [names[k]];
      assert Elements(names[..k + 1]) == done + {names[k]};
    }
    assert names[..|names|] == names;
  }

  lemma {:induction false} RenameNothing(b: Before, s: string, runtime: string)
    ensures RenameAll(b, s, RulesFor({}), runtime) == s
    decreases |s|
  {
    if s != "" {
      RenameNothing(Next(b, s[0]), s[1..], runtime);
      assert [s[0]] + s[1..] == s;
    }
  }

  /** The two substitutions for one more name extend the simultaneous renaming by that name. */
  lemma OneMoreName(value: string, r: string, done: set<string>, name: string, runtime: string)
    requires GoodNames(done + {name}, runtime) && r == RenameAll(Plain, value, RulesFor(done), runtime)
    ensures Substitute(Plain, Substitute(Plain, r, DoubleSlash, name, runtime), AtSign, name, runtime) ==
            RenameAll(Plain, value, RulesFor(done + {name}), runtime)
  {
    var slashes, at := Rule(DoubleSlash, name), Rule(AtSign, name);
    assert GoodNames({name} + {name}, runtime);
    RulesAreUsable(done, {name}, runtime);
    RulesAreUsable({name}, {name}, runtime);
    RulesUnion(done, {name});
    assert RulesFor({name}) == {slashes, at};
    SubstituteIsRename(Plain, r, slashes, runtime);
    SubstituteIsRename(Plain, RenameAll(Plain, r, {slashes}, runtime), at, runtime);
    RenamingsCompose(Plain, r, {slashes}, {at}, runtime);
    assert {slashes} + {at} == {slashes, at};
    RenamingsCompose(Plain, value, RulesFor(done), RulesFor({name}), runtime);
  }

  // ----- The renaming in terms of the text -------------------------------------------------

  /** What stands in front of a position: `//` or `@`. */
  predicate Behind(s: string, p: nat)
    requires p <= |s|
  {
    (p >= 2 && s[p - 2] == '/' && s[p - 1] == '/') || (p >= 1 && s[p - 1] == '@')
  }

  /** The name stands at a position, with `:` or `/` behind it. */
  predicate StandsAt(s: string, p: nat, name: string) {
    p + |name| < |s| && s[p..p + |name|] == name && (s[p + |name|] == ':' || s[p + |name|] == '/')
  }

  predicate HostAt(s: string, p: nat, names: set<string>)
    requires p <= |s|
  {
    Behind(s, p) && exists n :: n in names && StandsAt(s, p, n)
  }

  /** The text from a position on, every host among the names replaced. */
  ghost function Replaced(s: string, p: nat, names: set<string>, runtime: string): string
    requires p <= |s| && Hosts(names)
    decreases |s| - p
  {
    if p == |s| then ""
    else if HostAt(s, p, names) then
      var n :| n in names && StandsAt(s, p, n);
      Renamed(runtime, n) + Replaced(s, p + |n|, names, runtime)
    else [s[p]] + Replaced(s, p + 1, names, runtime)
  }

  /** The scan knows of the text in front of it what the lookbehinds ask. */
  predicate Knows(b: Before, s: string, p: nat)
    requires p <= |s|
  {
    && (b == AtSign <==> p >= 1 && s[p - 1] == '@')
    && (b == DoubleSlash <==> p >= 2 && s[p - 2] == '/' && s[p - 1] == '/')
    && (b == Slash ==> p >= 1 && s[p - 1] == '/')
    && (b == Plain ==> p >= 1 ==> s[p - 1] != '/')
  }

  lemma StandsIffToken(s: string, p: nat, name: string)
    requires Host(name) && p <= |s|
    ensures StandsAt(s, p, name) <==> Token(s[p..]) == Some(name)
  {
    TokenIsMatch(s[p..], name);
    if p + |name| < |s| {
      assert s[p..][..|name|] == s[p..p + |name|];
    }
  }

  lemma BehindAName(s: string, p: nat, name: string)
    requires StandsAt(s, p, name) && Host(name)
    ensures Knows(Plain, s, p + |name|)
  {
    var last := name[|name| - 1];
    assert s[p..p + |name|][|name| - 1] == s[p + |name| - 1] == last;
  }

  /** The scan renames exactly the hosts that stand in the text. */
  lemma {:induction false} ScanIsReplaced(b: Before, s: string, p: nat, names: set<string>, runtime: string)
    requires p <= |s| && Knows(b, s, p) && Hosts(names)
    ensures RenameAll(b, s[p..], RulesFor(names), runtime) == Replaced(s, p, names, runtime)
    decreases |s| - p, 1
  {
    if p < |s| {
      if HostAt(s, p, names) {
        ScanAtHost(b, s, p, names, runtime);
      } else {
        NoRuleApplies(b, s, p, names, runtime);
        KnowsOneMore(b, s, p);
        ScanIsReplaced(Next(b, s[p]), s, p + 1, names, runtime);
      }
    }
  }

  lemma {:induction false} ScanAtHost(b: Before, s: string, p: nat, names: set<string>, runtime: string)
    requires p < |s| && Knows(b, s, p) && Hosts(names) && HostAt(s, p, names)
    ensures RenameAll(b, s[p..], RulesFor(names), runtime) == Replaced(s, p, names, runtime)
    decreases |s| - p, 0
  {
    var n := FirstReplaced(s, p, names, runtime);
    BehindAName(s, p, n);
    RuleApplies(b, s, p, n, names, runtime);
    ScanIsReplaced(Plain, s, p + |n|, names, runtime);
  }

  lemma FirstReplaced(s: string, p: nat, names: set<string>, runtime: string) returns (n: string)
    requires p < |s| && Hosts(names) && HostAt(s, p, names)
    ensures n in names && Host(n) && StandsAt(s, p, n)
    ensures Replaced(s, p, names, runtime) == Renamed(runtime, n) + Replaced(s, p + |n|, names, runtime)
  {
    n :| n in names && StandsAt(s, p, n) && Replaced(s, p, names, runtime) ==
         Renamed(runtime, n) + Replaced(s, p + |n|, names, runtime);
  }

  lemma KnowsOneMore(b: Before, s: string, p: nat)
    requires p < |s| && Knows(b, s, p)
    ensures Knows(Next(b, s[p]), s, p + 1)
  {
  }

  lemma RuleApplies(b: Before, s: string, p: nat, n: string, names: set<string>, runtime: string)
    requires p <= |s| && Knows(b, s, p) && Behind(s, p) && Host(n) && n in names && StandsAt(s, p, n)
    ensures RenameAll(b, s[p..], RulesFor(names), runtime) ==
            Renamed(runtime, n) + RenameAll(Plain, s[p + |n|..], RulesFor(names), runtime)
  {
    StandsIffToken(s, p, n);
    RuleOf(Rule(b, n), names);
    TakenBranch(b, s[p..], n, RulesFor(names), runtime);
    assert s[p..][|n|..] == s[p + |n|..];
  }

  lemma NoRuleApplies(b: Before, s: string, p: nat, names: set<string>, runtime: string)
    requires p < |s| && Knows(b, s, p) && Hosts(names) && !HostAt(s, p, names)
    ensures RenameAll(b, s[p..], RulesFor(names), runtime) ==
            [s[p]] + RenameAll(Next(b, s[p]), s[p + 1..], RulesFor(names), runtime)
  {
    assert s[p..][1..] == s[p + 1..];
    var token := Token(s[p..]);
    if token.Some? {
      RuleOf(Rule(b, token.value), names);
      if token.value in names {
        StandsIffToken(s, p, token.value);
      }
    }
  }

  /** Main result: a value that is a name is renamed as a whole; in any other text exactly the names are
      that stand behind `//` or `@` and in front of `:` or `/`. */
  lemma RenamesExactlyTheHosts(s: string, names: set<string>, runtime: string)
    requires Hosts(names)
    ensures RenameString(s, names, runtime) ==
            if s in names then runtime + "-" + s else Replaced(s, 0, names, runtime)
  {
    ScanIsReplaced(Plain, s, 0, names, runtime);
    assert s[0..] == s;
  }

  // ----- Nested values --------------------------------------------------------------------

  datatype Json = Text(s: string) | List(items: seq<Json>) | Dict(fields: seq<(string, Json)>) | Other(id: int)

  /** rewrite on every string of a nested value, at once; keys stay. */
  function RenameJson(v: Json, names: set<string>, runtime: string): Json {
    match v
    case Text(s) => Text(RenameString(s, names, runtime))
    case List(items) => List(seq(|items|, k requires 0 <= k < |items| => RenameJson(items[k], names, runtime)))
    case Dict(fields) =>
      Dict(seq(|fields|, k requires 0 <= k < |fields| => (fields[k].0, RenameJson(fields[k].1, names, runtime))))
    case Other(_) => v
  }

  /** One whole pass over the value for each name, in the given order. */
  function RenameInTurn(v: Json, names: seq<string>, runtime: string): Json {
    if names == [] then v
    else RenameJson(RenameInTurn(v, names[..|names| - 1], runtime), {names[|names| - 1]}, runtime)
  }

  lemma StringsCompose(s: string, names: set<string>, others: set<string>, runtime: string)
    requires GoodNames(names + others, runtime)
    ensures RenameString(RenameString(s, names, runtime), others, runtime) == RenameString(s, names + others, runtime)
  {
    RulesAreUsable(names, others, runtime);
    RulesAreUsable(others, others, runtime);
    RulesUnion(names, others);
    if s in names {
      RenamedIsHost(runtime, s);
      var w := Renamed(runtime, s);
      assert w + "" == w;
      SkipWord(w, "", RulesFor(others), runtime);
    } else {
      RenamingsCompose(Plain, s, RulesFor(names), RulesFor(others), runtime);
      forall n | n in others ensures RenameAll(Plain, s, RulesFor(names), runtime) == n <==> s == n {
        PlainTextUnchanged(Plain, s, RulesFor(names), runtime, n);
      }
    }
  }

  lemma {:induction false} JsonCompose(v: Json, names: set<string>, others: set<string>, runtime: string)
    requires GoodNames(names + others, runtime)
    ensures RenameJson(RenameJson(v, names, runtime), others, runtime) == RenameJson(v, names + others, runtime)
    decreases v
  {
    match v
    case Text(s) => StringsCompose(s, names, others, runtime);
    case List(items) =>
      forall k | 0 <= k < |items|
        ensures RenameJson(RenameJson(items[k], names, runtime), others, runtime) ==
                RenameJson(items[k], names + others, runtime)
      {
        JsonCompose(items[k], names, others, runtime);
      }
    case Dict(fields) =>
      forall k | 0 <= k < |fields|
        ensures RenameJson(RenameJson(fields[k].1, names, runtime), others, runtime) ==
                RenameJson(fields[k].1, names + others, runtime)
      {
        JsonCompose(fields[k].1, names, others, runtime);
      }
    case Other(_) =>
  }

  lemma {:induction false} JsonUnchanged(v: Json, runtime: string)
    ensures RenameJson(v, {}, runtime) == v
    decreases v
  {
    match v
    case Text(s) => RenameNothing(Plain, s, runtime);
    case List(items) =>
      forall k | 0 <= k < |items| ensures RenameJson(items[k], {}, runtime) == items[k] {
        JsonUnchanged(items[k], runtime);
      }
    case Dict(fields) =>
      forall k | 0 <= k < |fields| ensures (fields[k].0, RenameJson(fields[k].1, {}, runtime)) == fields[k] {
        JsonUnchanged(fields[k].1, runtime);
      }
    case Other(_) =>
  }

  /** Main result: renaming one name after another, in any order, is the simultaneous renaming. */
  lemma {:induction false} InTurnIsSimultaneous(v: Json, names: seq<string>, runtime: string)
    requires GoodNames(Elements(names), runtime)
    ensures RenameInTurn(v, names, runtime) == RenameJson(v, Elements(names), runtime)
    decreases |names|
  {
    if names == [] {
      JsonUnchanged(v, runtime);
      assert Elements(names) == {};
    } else {
      var front, last := names[..|names| - 1], names[|names| - 1];
      assert names == front + [last];
      assert Elements(names) == Elements(front) + {last};
      InTurnIsSimultaneous(v, front, runtime);
      JsonCompose(v, Elements(front), {last}, runtime);
    }
  }

  /** Renaming a renamed value changes nothing: no host is ever renamed twice. */
  lemma RenamingIsIdempotent(v: Json, names: set<string>, runtime: string)
    requires GoodNames(names, runtime)
    ensures RenameJson(RenameJson(v, names, runtime), names, runtime) == RenameJson(v, names, runtime)
  {
    assert names + names == names;
    JsonCompose(v, names, names, runtime);
  }
}
