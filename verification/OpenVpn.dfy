// pmx_vpn_parse_openvpn: directives outside inline blocks decide everything,
// bodies of inline blocks decide nothing.

module OpenVpn {
  import opened Types
  import opened CText

  const MAX_LINE := 1024
  const MAX_TAG := 64
  const MAX_TOKENS := 8
  const MAX_ENDPOINTS := 8
  const DEFAULT_PORT: Port := 1194

  datatype Remote = Remote(host: string, port: Port, udp: bool)

  // The part of pmx_vpn this parser fills.
  datatype Config = Config(
    endpoints: seq<Remote>, truncated: bool,
    cipher: string, authDigest: string, dev: string, dns: string, mtu: int,
    userPass: bool, fullTunnel: bool, inlineSecrets: bool)

  const EMPTY := Config([], false, "", "", "", "", 0, false, false, false)

  // skipping is the tag of the open inline block, empty outside blocks.
  datatype Parser = Parser(skipping: string, udp: bool, port: Port, out: Config)

  const START := Parser("", true, DEFAULT_PORT, EMPTY)

  // ---- text to lines -----------------------------------------------------------

  // Position of the next c at or after i, or the end.
  function IndexOf(s: string, c: char, i: nat): (j: nat)
    requires i <= |s|
    ensures i <= j <= |s| && (j < |s| ==> s[j] == c) && forall k :: i <= k < j ==> s[k] != c
    decreases |s| - i
  {
    if i < |s| && s[i] != c then IndexOf(s, c, i + 1) else i
  }

  // strchr as a loop
  method Find(s: string, c: char, from: nat) returns (j: nat)
    requires from <= |s|
    ensures j == IndexOf(s, c, from)
  {
    j := from;
    while j < |s| && s[j] != c
      invariant from <= j <= |s| && IndexOf(s, c, from) == IndexOf(s, c, j)
    {
      j := j + 1;
    }
  }

  // The lines of the text from i on; a final newline opens no further line.
  function LinesFrom(text: string, i: nat): seq<string>
    requires i <= |text|
    decreases |text| - i
  {
    if i == |text| then []
    else
      var nl := IndexOf(text, '\n', i);
      [text[i..nl]] + if nl == |text| then [] else LinesFrom(text, nl + 1)
  }

  // Where the text proper starts, behind a UTF-8 byte order mark.
  function BomLength(text: string): (n: nat)
    ensures n <= |text|
  {
    if |text| >= 3 && text[0] as int == 0xEF && text[1] as int == 0xBB && text[2] as int == 0xBF then 3 else 0
  }

  // ---- one line -------------------------------------------------------------------

  function Cut(s: string, c: char): string {
    s[..IndexOf(s, c, 0)]
  }

  // strip_comment with both comment characters.
  function StripComment(s: string): string {
    var h := IndexOf(s, '#', 0);
    var m := IndexOf(s, ';', 0);
    s[..if h < m then h else m]
  }

  method DoStripComment(s: string) returns (r: string)
    ensures r == StripComment(s)
  {
    var p := 0;
    while p < |s|
      invariant p <= |s|
      invariant IndexOf(s, '#', 0) == IndexOf(s, '#', p) && IndexOf(s, ';', 0) == IndexOf(s, ';', p)
    {
      if s[p] == '#' || s[p] == ';' { return s[..p]; }
      p := p + 1;
    }
    r := s;
  }

  function WordEnd(s: string, i: nat): (j: nat)
    requires i <= |s|
    ensures i <= j <= |s| && (i < |s| && !IsSpace(s[i]) ==> i < j)
    decreases |s| - i
  {
    if i < |s| && !IsSpace(s[i]) then WordEnd(s, i + 1) else i
  }

  // The first `max` words of s from i on.
  function Words(s: string, i: nat, max: nat): (r: seq<string>)
    requires i <= |s|
    ensures |r| <= max && forall w :: w in r ==> w != []
    decreases max
  {
    var b := SkipSpace(s, i);
    if max == 0 || b == |s| then []
    else
      var e := WordEnd(s, b);
      [s[b..e]] + Words(s, if e < |s| then e + 1 else e, max - 1)
  }

  lemma WordsNext(s: string, i: nat, max: nat)
    requires i <= |s| && max > 0
    ensures var b := SkipSpace(s, i);
      var e := WordEnd(s, b);
      b <= e && Words(s, i, max)
        == if b == |s| then [] else [s[b..e]] + Words(s, if e < |s| then e + 1 else e, max - 1)
  {
  }

  method SkipBlank(s: string, from: nat) returns (p: nat)
    requires from <= |s|
    ensures p == SkipSpace(s, from)
  {
    p := from;
    while p < |s| && IsSpace(s[p])
      invariant from <= p <= |s| && SkipSpace(s, from) == SkipSpace(s, p)
    {
      p := p + 1;
    }
  }

  method SkipWord(s: string, from: nat) returns (p: nat)
    requires from <= |s|
    ensures p == WordEnd(s, from)
  {
    p := from;
    while p < |s| && !IsSpace(s[p])
      invariant from <= p <= |s| && WordEnd(s, from) == WordEnd(s, p)
    {
      p := p + 1;
    }
  }

  // tokenize
  method Tokenize(s: string) returns (tok: seq<string>)
    ensures tok == Words(s, 0, MAX_TOKENS)
  {
    hide SkipSpace, WordEnd, Words;
    tok := [];
    var p: nat := 0;
    ghost var all := Words(s, 0, MAX_TOKENS);
    assert [] + all == all;
    while p < |s| && |tok| < MAX_TOKENS
      invariant p <= |s| && |tok| <= MAX_TOKENS
      invariant all == tok + Words(s, p, MAX_TOKENS - |tok|)
      decreases MAX_TOKENS - |tok|
    {
      WordsNext(s, p, MAX_TOKENS - |tok|);
      var b := SkipBlank(s, p);
      if b == |s| {
        assert tok + [] == tok;
        return;
      }
      var e := SkipWord(s, b);
      p := if e < |s| then e + 1 else e;
      ghost var rest := Words(s, p, MAX_TOKENS - |tok| - 1);
      assert tok + ([s[b..e]] + rest) == (tok + [s[b..e]]) + rest;
      tok := tok + [s[b..e]];
    }
    WordsEnd(s, p, MAX_TOKENS - |tok|);
    assert tok + [] == tok;
  }

  lemma WordsEnd(s: string, i: nat, max: nat)
    requires i == |s| || (max == 0 && i <= |s|)
    ensures Words(s, i, max) == []
  {
  }

  predicate IsOpening(line: string) {
    |line| > 0 && line[0] == '<' && !(|line| > 1 && line[1] == '/')
  }

  predicate IsClosing(line: string) {
    |line| > 1 && line[0] == '<' && line[1] == '/'
  }

  // The tag behind the bracket, cut to its buffer.
  function TagOf(rest: string): string {
    Cut(Clip(rest, MAX_TAG), '>')
  }

  predicate IsSecret(tag: string) {
    CiEq(tag, "key") || CiEq(tag, "tls-auth") || CiEq(tag, "tls-crypt")
    || CiEq(tag, "tls-crypt-v2") || CiEq(tag, "secret") || CiEq(tag, "pkcs12")
  }

  predicate IsTcp(w: string) {
    CiEq(w, "tcp") || CiEq(w, "tcp-client") || CiEq(w, "tcp4") || CiEq(w, "tcp6")
  }

  // (int)strtol(tok, NULL, 10)
  function IntOf(s: string): int {
    match Strtol(s, 0)
    case NoNumber => 0
    case Number(v, _) => v
  }

  // A remote line names a host, perhaps a port, perhaps a protocol.
  predicate IsRemote(w: seq<string>) {
    |w| >= 2 && CiEq(w[0], "remote")
  }

  function RemoteOf(w: seq<string>, udp: bool): Remote
    requires IsRemote(w)
  {
    Remote(Clip(w[1], MAX_HOST), if |w| >= 3 then PortCast(w[2]) else 0, if |w| >= 4 then !IsTcp(w[3]) else udp)
  }

  // add_endpoint
  function AddRemote(c: Config, r: Remote): Config {
    if r.host == [] then c
    else if |c.endpoints| >= MAX_ENDPOINTS then c.(truncated := true)
    else c.(endpoints := c.endpoints + [r])
  }

  predicate Named(w: seq<string>, name: string, least: nat) {
    |w| >= least && |w| > 0 && CiEq(w[0], name)
  }

  function Directive(st: Parser, w: seq<string>): Parser {
    var c := st.out;
    if IsRemote(w) then st.(out := AddRemote(c, RemoteOf(w, st.udp)))
    else if Named(w, "proto", 2) then st.(udp := !IsTcp(w[1]))
    else if Named(w, "port", 2) then st.(port := PortCast(w[1]))
    else if Named(w, "cipher", 2) || Named(w, "data-ciphers", 2) then
      if c.cipher == [] then st.(out := c.(cipher := Clip(w[1], 64))) else st
    else if Named(w, "auth", 2) then st.(out := c.(authDigest := Clip(w[1], 64)))
    else if Named(w, "dev", 2) then st.(out := c.(dev := Clip(w[1], 16)))
    else if Named(w, "auth-user-pass", 1) then st.(out := c.(userPass := true))
    else if Named(w, "redirect-gateway", 1) then st.(out := c.(fullTunnel := true))
    else if Named(w, "tun-mtu", 2) then st.(out := c.(mtu := IntOf(w[1])))
    else if Named(w, "dhcp-option", 3) && CiEq(w[1], "DNS") then st.(out := c.(dns := Clip(w[2], MAX_HOST)))
    else st
  }

  // The words of a directive line.
  function WordsOf(line: string): seq<string> {
    Words(Trimmed(StripComment(line)), 0, MAX_TOKENS)
  }

  function OpenBlock(st: Parser, tag: string): Parser {
    if tag == "connection" then st
    else st.(skipping := tag, out := if IsSecret(tag) then st.out.(inlineSecrets := true) else st.out)
  }

  function Step(st: Parser, raw: string): Parser {
    var line := Trimmed(Clip(raw, MAX_LINE));
    if st.skipping != [] then
      if IsClosing(line) && TagOf(line[2..]) == st.skipping then st.(skipping := "") else st
    else if IsOpening(line) then OpenBlock(st, TagOf(line[1..]))
    else if IsClosing(line) then st
    else Directive(st, WordsOf(line))
  }

  function After(st: Parser, lines: seq<string>): Parser {
    if lines == [] then st else Step(After(st, lines[..|lines| - 1]), lines[|lines| - 1])
  }

  // Remotes without a port get the file's own default.
  function FillPort(r: Remote, port: Port): Remote {
    if r.port == 0 then r.(port := if port != 0 then port else DEFAULT_PORT) else r
  }

  function FillPorts(rs: seq<Remote>, port: Port): (r: seq<Remote>)
    ensures |r| == |rs|
  {
    seq(|rs|, i requires 0 <= i < |rs| => FillPort(rs[i], port))
  }

  function Finish(st: Parser): (Status, Config) {
    (if st.out.endpoints == [] then ErrParse else Ok,
     st.out.(endpoints := FillPorts(st.out.endpoints, st.port)))
  }

  function ParseLines(lines: seq<string>): (Status, Config) {
    Finish(After(START, lines))
  }

  // One round of the line loop, on the local variables.
  method ParseLine(st: Parser, raw: string) returns (st': Parser)
    ensures st' == Step(st, raw)
  {
    hide Trimmed, Clip, TagOf, IsSecret, Directive, Words;
    st' := st;
    var line := Trim(Clip(raw, MAX_LINE));
    if st.skipping != [] {
      if |line| > 1 && line[0] == '<' && line[1] == '/' {
        if TagOf(line[2..]) == st.skipping { st' := st.(skipping := ""); }
      }
      return;
    }
    if |line| > 0 && line[0] == '<' && !(|line| > 1 && line[1] == '/') {
      var tag := TagOf(line[1..]);
      if tag != "connection" {
        if IsSecret(tag) { st' := st'.(out := st'.out.(inlineSecrets := true)); }
        st' := st'.(skipping := tag);
      }
      return;
    }
    if |line| > 1 && line[0] == '<' && line[1] == '/' { return; }
    line := DoStripComment(line);
    line := Trim(line);
    if line == [] {
      NoWords(st);
      return;
    }
    var tok := Tokenize(line);
    st' := Directive(st, tok);
  }

  lemma NoWords(st: Parser)
    ensures Words([], 0, MAX_TOKENS) == [] && Directive(st, []) == st
  {
  }

  // pmx_vpn_parse_openvpn
  method ParseOpenVpn(text: string) returns (status: Status, out: Config)
    ensures (status, out) == ParseLines(LinesFrom(text, BomLength(text)))
  {
    hide Step, IndexOf, LinesFrom;
    var st := START;
    var p: nat := BomLength(text);
    ghost var all := LinesFrom(text, p);
    ghost var done: seq<string> := [];
    assert [] + all == all && After(START, []) == START;
    hide After;
    while p < |text|
      invariant p <= |text|
      invariant all == done + LinesFrom(text, p)
      invariant st == After(START, done)
      decreases |text| - p
    {
      var nl := Find(text, '\n', p);
      var raw := text[p..nl];
      st := ParseLine(st, raw);
      LinesNext(text, p, nl);
      ghost var next := if nl == |text| then nl else nl + 1;
      assert done + ([raw] + LinesFrom(text, next)) == (done + [raw]) + LinesFrom(text, next);
      AfterSnoc(START, done, raw);
      done := done + [raw];
      p := if nl < |text| then nl + 1 else |text|;
    }
    NoLines(text);
    assert done + [] == done;
    out := FillAll(st);
    status := if |out.endpoints| == 0 then ErrParse else Ok;
  }

  // The last loop: the global port goes to remotes that named none.
  method FillAll(st: Parser) returns (out: Config)
    ensures out == st.out.(endpoints := FillPorts(st.out.endpoints, st.port))
  {
    out := st.out;
    var i := 0;
    while i < |out.endpoints|
      invariant i <= |out.endpoints| == |st.out.endpoints|
      invariant out == st.out.(endpoints := out.endpoints)
      invariant forall k :: 0 <= k < |out.endpoints| ==>
        out.endpoints[k] == if k < i then FillPort(st.out.endpoints[k], st.port) else st.out.endpoints[k]
    {
      if out.endpoints[i].port == 0 {
        var filled := out.endpoints[i].(port := if st.port != 0 then st.port else DEFAULT_PORT);
        out := out.(endpoints := out.endpoints[i := filled]);
      }
      i := i + 1;
    }
    assert out.endpoints == FillPorts(st.out.endpoints, st.port);
  }

  lemma AfterSnoc(st: Parser, lines: seq<string>, l: string)
    ensures After(st, lines + [l]) == Step(After(st, lines), l)
  {
    hide Step;
    assert (lines + [l])[..|lines|] == lines;
  }

  lemma LinesNext(text: string, p: nat, nl: nat)
    requires p < |text| && nl == IndexOf(text, '\n', p)
    ensures LinesFrom(text, p) == [text[p..nl]] + LinesFrom(text, if nl == |text| then nl else nl + 1)
  {
  }

  // ---- non-interference ------------------------------------------------------------------

  // The line opens an inline block of this tag.
  predicate Opens(raw: string, tag: string) {
    var line := Trimmed(Clip(raw, MAX_LINE));
    IsOpening(line) && tag == TagOf(line[1..]) && tag != [] && tag != "connection"
  }

  predicate Closes(raw: string, tag: string) {
    var line := Trimmed(Clip(raw, MAX_LINE));
    IsClosing(line) && TagOf(line[2..]) == tag
  }

  lemma {:induction false} AfterAppend(st: Parser, a: seq<string>, b: seq<string>)
    ensures After(st, a + b) == After(After(st, a), b)
    decreases |b|
  {
    hide Step;
    if b == [] {
      assert a + b == a;
    } else {
      var n := |b| - 1;
      assert (a + b)[..|a + b| - 1] == a + b[..n] && (a + b)[|a + b| - 1] == b[n];
      AfterAppend(st, a, b[..n]);
    }
  }

  lemma LineSkipped(st: Parser, l: string)
    requires st.skipping != [] && !Closes(l, st.skipping)
    ensures Step(st, l) == st
  {
    hide Trimmed, Clip, TagOf, OpenBlock, Directive;
  }

  lemma {:induction false} BodySkipped(st: Parser, body: seq<string>)
    requires st.skipping != [] && forall l :: l in body ==> !Closes(l, st.skipping)
    ensures After(st, body) == st
    decreases |body|
  {
    if body != [] {
      hide Step, Closes;
      var n := |body| - 1;
      assert body[n] in body;
      assert forall l :: l in body[..n] ==> l in body;
      BodySkipped(st, body[..n]);
      LineSkipped(st, body[n]);
    }
  }

  // A block, opened where no other is open, has the same effect whatever its
  // body says.
  lemma BlockIsItsTag(st: Parser, open: string, tag: string, body: seq<string>, close: string)
    requires st.skipping == [] && Opens(open, tag) && Closes(close, tag)
    requires forall l :: l in body ==> !Closes(l, tag)
    ensures After(st, [open] + body + [close]) == OpenBlock(st, tag).(skipping := "")
  {
    hide Trimmed, Clip, TagOf, IsSecret, Directive;
    var inside := Step(st, open);
    assert inside == OpenBlock(st, tag);
    After1(st, open);
    BodySkipped(inside, body);
    After1(inside, close);
    AfterAppend(st, [open], body);
    AfterAppend(st, [open] + body, [close]);
  }

  lemma After1(st: Parser, l: string)
    ensures After(st, [l]) == Step(st, l)
  {
    hide Step;
    assert [l][..0] == [];
  }

  // Two configs that differ only in the body of an inline block parse to the
  // same result.
  lemma BodiesDoNotMatter(pre: seq<string>, open: string, tag: string, body: seq<string>, body': seq<string>,
                          close: string, post: seq<string>)
    requires After(START, pre).skipping == [] && Opens(open, tag) && Closes(close, tag)
    requires forall l :: l in body + body' ==> !Closes(l, tag)
    ensures ParseLines(pre + ([open] + body + [close]) + post) == ParseLines(pre + ([open] + body' + [close]) + post)
  {
    hide Step, Opens, Closes, OpenBlock;
    var st := After(START, pre);
    assert forall l :: l in body || l in body' ==> l in body + body';
    BlockIsItsTag(st, open, tag, body, close);
    BlockIsItsTag(st, open, tag, body', close);
    AfterAppend(START, pre, [open] + body + [close]);
    AfterAppend(START, pre, [open] + body' + [close]);
    AfterAppend(START, pre + ([open] + body + [close]), post);
    AfterAppend(START, pre + ([open] + body' + [close]), post);
  }

  // ---- what is parsed ----------------------------------------------------------------------

  // The tag of the block open after these lines; empty outside blocks.
  function OpenTag(lines: seq<string>): string {
    if lines == [] then ""
    else
      var tag, l := OpenTag(lines[..|lines| - 1]), Trimmed(Clip(lines[|lines| - 1], MAX_LINE));
      if tag != [] then (if IsClosing(l) && TagOf(l[2..]) == tag then "" else tag)
      else if IsOpening(l) && TagOf(l[1..]) != "connection" then TagOf(l[1..])
      else ""
  }

  // The directives outside inline blocks, as words, in order.
  function Directives(lines: seq<string>): seq<seq<string>> {
    if lines == [] then []
    else
      var before, l := lines[..|lines| - 1], Trimmed(Clip(lines[|lines| - 1], MAX_LINE));
      Directives(before)
      + if OpenTag(before) == [] && !IsOpening(l) && !IsClosing(l) && WordsOf(l) != [] then [WordsOf(l)] else []
  }

  // The default protocol and port in force after these directives.
  function DefaultUdp(ds: seq<seq<string>>): bool {
    if ds == [] then true
    else
      var w := ds[|ds| - 1];
      if Named(w, "proto", 2) then !IsTcp(w[1]) else DefaultUdp(ds[..|ds| - 1])
  }

  function DefaultPort(ds: seq<seq<string>>): Port {
    if ds == [] then DEFAULT_PORT
    else
      var w := ds[|ds| - 1];
      if Named(w, "port", 2) then PortCast(w[1]) else DefaultPort(ds[..|ds| - 1])
  }

  // Every remote directive, with the protocol in force where it stands.
  function Remotes(ds: seq<seq<string>>): seq<Remote> {
    if ds == [] then []
    else
      var before, w := ds[..|ds| - 1], ds[|ds| - 1];
      Remotes(before) + if IsRemote(w) then [RemoteOf(w, DefaultUdp(before))] else []
  }

  function FirstN<T>(s: seq<T>, n: nat): seq<T> {
    if |s| <= n then s else s[..n]
  }

  // The parser has taken in exactly these directives.
  ghost predicate Reflects(st: Parser, ds: seq<seq<string>>) {
    && st.udp == DefaultUdp(ds) && st.port == DefaultPort(ds)
    && st.out.endpoints == FirstN(Remotes(ds), MAX_ENDPOINTS)
    && (st.out.truncated <==> |Remotes(ds)| > MAX_ENDPOINTS)
  }

  lemma OneName(a: string, b: string, w: string)
    requires CiEq(w, a) && CiEq(w, b)
    ensures CiEq(a, b)
  {
  }

  lemma NamesDiffer(w: seq<string>)
    ensures !(IsRemote(w) && Named(w, "proto", 2)) && !(IsRemote(w) && Named(w, "port", 2))
    ensures !(Named(w, "proto", 2) && Named(w, "port", 2))
  {
    if |w| > 0 {
      assert "remote"[0] == 'r' && "proto"[0] == 'p' && |"proto"| == 5 && |"port"| == 4;
      if CiEq(w[0], "remote") && CiEq(w[0], "proto") { OneName("remote", "proto", w[0]); }
      if CiEq(w[0], "remote") && CiEq(w[0], "port") { OneName("remote", "port", w[0]); }
      if CiEq(w[0], "proto") && CiEq(w[0], "port") { OneName("proto", "port", w[0]); }
    }
  }

  // Directives other than these three leave endpoints and defaults alone.
  lemma OtherDirective(st: Parser, w: seq<string>)
    requires !IsRemote(w) && !Named(w, "proto", 2) && !Named(w, "port", 2)
    ensures var st' := Directive(st, w);
      st'.udp == st.udp && st'.port == st.port && st'.skipping == st.skipping
      && st'.out.endpoints == st.out.endpoints && st'.out.truncated == st.out.truncated
  {
    hide CiEq, Clip, IntOf;
  }

  lemma DirectiveReflects(st: Parser, ds: seq<seq<string>>, w: seq<string>)
    requires Reflects(st, ds) && forall x :: x in w ==> x != []
    ensures Reflects(Directive(st, w), ds + [w]) && Directive(st, w).skipping == st.skipping
  {
    var ds' := ds + [w];
    assert ds'[..|ds'| - 1] == ds && ds'[|ds'| - 1] == w;
    NamesDiffer(w);
    hide CiEq, PortCast, IsTcp;
    if IsRemote(w) {
      var r := RemoteOf(w, st.udp);
      assert w[1] in w && r.host != [];
      assert Remotes(ds') == Remotes(ds) + [r];
    } else if Named(w, "proto", 2) || Named(w, "port", 2) {
      assert Remotes(ds') == Remotes(ds);
    } else {
      OtherDirective(st, w);
      hide Directive;
      assert Remotes(ds') == Remotes(ds);
    }
  }

  lemma {:induction false} RunReflects(lines: seq<string>)
    ensures After(START, lines).skipping == OpenTag(lines)
    ensures Reflects(After(START, lines), Directives(lines))
  {
    hide Reflects, Directive, IsSecret, CiEq;
    if lines == [] {
      ReflectsStart();
    } else {
      var n := |lines| - 1;
      RunReflects(lines[..n]);
      var st, l, ds := After(START, lines[..n]), Trimmed(Clip(lines[n], MAX_LINE)), Directives(lines[..n]);
      hide Trimmed, Clip, TagOf;
      if OpenTag(lines[..n]) == [] && !IsOpening(l) && !IsClosing(l) {
        var w := WordsOf(l);
        hide WordsOf;
        WordsNonEmpty(l);
        if w == [] {
          NoWords(st);
          assert ds + [] == ds;
        } else {
          DirectiveReflects(st, ds, w);
        }
      } else {
        assert Directives(lines) == ds by { assert ds + [] == ds; }
        SameReflects(st, After(START, lines), ds);
      }
    }
  }

  lemma ReflectsStart()
    ensures Reflects(START, [])
  {
  }

  lemma WordsNonEmpty(line: string)
    ensures forall x :: x in WordsOf(line) ==> x != []
  {
  }

  lemma SameReflects(st: Parser, st': Parser, ds: seq<seq<string>>)
    requires Reflects(st, ds)
    requires st'.udp == st.udp && st'.port == st.port
    requires st'.out.endpoints == st.out.endpoints && st'.out.truncated == st.out.truncated
    ensures Reflects(st', ds)
  {
  }

  // The endpoints are exactly the first eight remote directives outside inline
  // blocks, every one with a non-zero port; the truncation flag says whether
  // there were more; parsing fails exactly when there were none.
  lemma EndpointsAreTheRemotes(lines: seq<string>)
    ensures var ds := Directives(lines);
      var (status, out) := ParseLines(lines);
      && out.endpoints == FillPorts(FirstN(Remotes(ds), MAX_ENDPOINTS), DefaultPort(ds))
      && (forall i :: 0 <= i < |out.endpoints| ==> out.endpoints[i].port != 0)
      && (out.truncated <==> |Remotes(ds)| > MAX_ENDPOINTS)
      && (status == if Remotes(ds) == [] then ErrParse else Ok)
  {
    RunReflects(lines);
    hide After, Directives, Remotes, DefaultPort, DefaultUdp;
  }

  // ---- from lines to text ---------------------------------------------------------------------

  function Text(lines: seq<string>): string {
    if lines == [] then "" else lines[0] + "\n" + Text(lines[1..])
  }

  lemma {:induction false} IndexAt(s: string, c: char, i: nat, j: nat)
    requires i <= j < |s| && s[j] == c && forall k :: i <= k < j ==> s[k] != c
    ensures IndexOf(s, c, i) == j
    decreases j - i
  {
    if i < j { IndexAt(s, c, i + 1, j); }
  }

  lemma {:induction false} LinesOfText(s: string, i: nat, lines: seq<string>)
    requires i <= |s| && s[i..] == Text(lines)
    requires forall k :: 0 <= k < |lines| ==> '\n' !in lines[k]
    ensures LinesFrom(s, i) == lines
    decreases |lines|
  {
    hide LinesFrom, IndexOf;
    if lines == [] {
      NoLines(s);
    } else {
      var l, j := lines[0], i + |lines[0]|;
      assert Text(lines) == l + "\n" + Text(lines[1..]);
      FirstLine(s, i, l, Text(lines[1..]));
      hide Text;
      forall k | i <= k < j ensures s[k] != '\n' { assert s[k] == l[k - i] && l[k - i] in l; }
      IndexAt(s, '\n', i, j);
      LinesOfText(s, j + 1, lines[1..]);
      LinesNext(s, i, j);
      assert lines == [l] + lines[1..];
    }
  }

  lemma NoLines(s: string)
    ensures LinesFrom(s, |s|) == []
  {
  }

  lemma FirstLine(s: string, i: nat, l: string, rest: string)
    requires i <= |s| && s[i..] == l + "\n" + rest
    ensures var j := i + |l|;
      && j < |s| && s[i..j] == l && s[j] == '\n' && s[j + 1..] == rest
      && forall k :: i <= k < j ==> s[k] == l[k - i]
  {
    var j := i + |l|;
    assert |s[i..]| == |l| + 1 + |rest|;
    assert s[i..j] == s[i..][..|l|] == l;
    assert s[j] == s[i..][|l|];
    assert s[j + 1..] == s[i..][|l| + 1..] == rest;
    forall k | i <= k < j ensures s[k] == l[k - i] { assert s[i..j][k - i] == s[k]; }
  }

  // ---- non-interference on whole texts ---------------------------------------------------------

  // Text that stops at the end of a line.
  predicate WholeLines(s: string) {
    s == [] || s[|s| - 1] == '\n'
  }

  lemma {:induction false} IndexInRest(p: string, s: string, j: nat)
    requires j <= |s|
    ensures IndexOf(p + s, '\n', |p| + j) == |p| + IndexOf(s, '\n', j)
    decreases |s| - j
  {
    if j < |s| && s[j] != '\n' { IndexInRest(p, s, j + 1); }
  }

  lemma {:induction false} IndexInFront(p: string, s: string, i: nat)
    requires i < |p| && WholeLines(p)
    ensures IndexOf(p + s, '\n', i) == IndexOf(p, '\n', i) < |p|
    decreases |p| - i
  {
    if p[i] != '\n' { IndexInFront(p, s, i + 1); }
  }

  lemma {:induction false} LinesOfRest(p: string, s: string, j: nat)
    requires j <= |s|
    ensures LinesFrom(p + s, |p| + j) == LinesFrom(s, j)
    decreases |s| - j
  {
    hide *;
    if j == |s| {
      NoLines(s);
      NoLines(p + s);
    } else {
      var nl := IndexOf(s, '\n', j);
      IndexInRest(p, s, j);
      LinesNext(s, j, nl);
      LinesNext(p + s, |p| + j, |p| + nl);
      assert (p + s)[|p| + j..|p| + nl] == s[j..nl];
      LinesOfRest(p, s, if nl == |s| then nl else nl + 1);
    }
  }

  // The lines of whole lines followed by anything are the lines of each.
  lemma {:induction false} LinesJoin(p: string, s: string, i: nat)
    requires i <= |p| && WholeLines(p)
    ensures LinesFrom(p + s, i) == LinesFrom(p, i) + LinesFrom(s, 0)
    decreases |p| - i
  {
    hide *;
    if i == |p| {
      LinesOfRest(p, s, 0);
      NoLines(p);
    } else {
      var nl := IndexOf(p, '\n', i);
      IndexInFront(p, s, i);
      LinesNext(p, i, nl);
      LinesNext(p + s, i, nl);
      assert (p + s)[i..nl] == p[i..nl];
      LinesJoin(p, s, nl + 1);
      var l, mid, last := [p[i..nl]], LinesFrom(p, nl + 1), LinesFrom(s, 0);
      assert l + (mid + last) == (l + mid) + last;
    }
  }

  lemma {:induction false} LineFits(p: string, i: nat, l: string)
    requires i <= |p| && WholeLines(p) && l in LinesFrom(p, i)
    ensures |l| < |p| - i
    decreases |p| - i
  {
    hide LinesFrom, IndexOf;
    if i == |p| {
      NoLines(p);
      assert false;
    }
    assert p + "" == p;
    IndexInFront(p, "", i);
    var nl := IndexOf(p, '\n', i);
    LinesNext(p, i, nl);
    if l != p[i..nl] { LineFits(p, nl + 1, l); }
  }

  lemma OpeningHasTwo(raw: string, tag: string)
    requires Opens(raw, tag)
    ensures |raw| >= 2
  {
    var left := TrimMeaning(Clip(raw, MAX_LINE));
  }

  // The lines of front, body and rest, behind the byte order mark if there is one.
  lemma LinesOfThree(front: string, body: string, rest: string)
    requires |front| >= 3 && WholeLines(front) && WholeLines(body)
    ensures var t := front + body + rest;
      LinesFrom(t, BomLength(t)) == LinesFrom(front, BomLength(front)) + LinesFrom(body, 0) + LinesFrom(rest, 0)
  {
    var t := front + body + rest;
    assert BomLength(t) == BomLength(front);
    assert t == front + (body + rest);
    LinesJoin(front, body + rest, BomLength(front));
    LinesJoin(body, rest, 0);
    hide LinesFrom;
  }

  // The same on whole texts, with or without a byte order mark and a newline at
  // the end: the front ends with the opening line, the rest starts with the
  // closing one, and what stands between makes no difference.
  lemma TextBodiesDoNotMatter(front: string, body: string, body': string, rest: string,
                              pre: seq<string>, open: string, tag: string, close: string, post: seq<string>)
    requires WholeLines(front) && WholeLines(body) && WholeLines(body')
    requires LinesFrom(front, BomLength(front)) == pre + [open] && LinesFrom(rest, 0) == [close] + post
    requires After(START, pre).skipping == [] && Opens(open, tag) && Closes(close, tag)
    requires forall l :: l in LinesFrom(body, 0) + LinesFrom(body', 0) ==> !Closes(l, tag)
    ensures var a, b := front + body + rest, front + body' + rest;
      ParseLines(LinesFrom(a, BomLength(a))) == ParseLines(LinesFrom(b, BomLength(b)))
  {
    hide *;
    assert open in pre + [open];
    LineFits(front, BomLength(front), open);
    OpeningHasTwo(open, tag);
    LinesOfThree(front, body, rest);
    LinesOfThree(front, body', rest);
    var lb, lb' := LinesFrom(body, 0), LinesFrom(body', 0);
    Regroup(pre, open, lb, close, post);
    Regroup(pre, open, lb', close, post);
    BodiesDoNotMatter(pre, open, tag, lb, lb', close, post);
  }

  lemma Regroup(pre: seq<string>, open: string, body: seq<string>, close: string, post: seq<string>)
    ensures pre + [open] + body + ([close] + post) == pre + ([open] + body + [close]) + post
  {
  }

  // ---- a written config is read back ---------------------------------------------------------------

  // A word of a line: not empty, no blank, no comment character, no bracket first.
  predicate Word(w: string) {
    w != [] && w[0] != '<' && forall c :: c in w ==> !IsSpace(c) && c != '#' && c != ';'
  }

  function Line(ws: seq<string>): string {
    if ws == [] then "" else if |ws| == 1 then ws[0] else ws[0] + " " + Line(ws[1..])
  }

  ghost predicate Writable(ws: seq<string>) {
    0 < |ws| <= 8 && AllWords(ws) && |Line(ws)| < 1024
  }

  ghost predicate AllWords(ws: seq<string>) {
    forall i :: 0 <= i < |ws| ==> Word(ws[i])
  }

  lemma {:induction false} LineEnds(ws: seq<string>)
    requires ws != [] && AllWords(ws)
    ensures ws[0] != [] && Line(ws) != [] && Line(ws)[0] == ws[0][0]
    ensures !IsSpace(Line(ws)[0]) && !IsSpace(Line(ws)[|Line(ws)| - 1])
    ensures '#' !in Line(ws) && ';' !in Line(ws)
    decreases |ws|
  {
    var w, l := ws[0], Line(ws);
    assert Word(w) && w[0] in w && w[|w| - 1] in w;
    if |ws| > 1 {
      LineEnds(ws[1..]);
      var rest := Line(ws[1..]);
      assert l == w + " " + rest && l[|l| - 1] == rest[|rest| - 1];
    }
  }

  lemma TrimmedAlready(s: string)
    requires s != [] && !IsSpace(s[0]) && !IsSpace(s[|s| - 1])
    ensures Trimmed(s) == s
  {
  }

  lemma {:induction false} AbsentIndex(s: string, c: char, i: nat)
    requires i <= |s| && c !in s
    ensures IndexOf(s, c, i) == |s|
    decreases |s| - i
  {
    if i < |s| { AbsentIndex(s, c, i + 1); }
  }

  lemma {:induction false} WordEndAt(s: string, i: nat, e: nat)
    requires i <= e <= |s| && (forall k :: i <= k < e ==> !IsSpace(s[k])) && (e == |s| || IsSpace(s[e]))
    ensures WordEnd(s, i) == e
    decreases e - i
  {
    if i < e { WordEndAt(s, i + 1, e); }
  }

  // The first word of a written line, and where the rest of the line stands.
  lemma FirstWord(s: string, i: nat, ws: seq<string>)
    requires i <= |s| && ws != [] && s[i..] == Line(ws) && AllWords(ws)
    ensures ws[1..] == [] || AllWords(ws[1..])
    ensures var e := i + |ws[0]|;
      && i < e <= |s| && SkipSpace(s, i) == i && WordEnd(s, i) == e && s[i..e] == ws[0]
      && (e == |s| <==> |ws| == 1) && (e < |s| ==> s[e + 1..] == Line(ws[1..]))
  {
    var w, e := ws[0], i + |ws[0]|;
    LineEnds(ws);
    assert s[i] == s[i..][0] && |s[i..]| == |s| - i;
    assert s[i..e] == s[i..][..|w|] == w;
    assert Word(w);
    forall k | i <= k < e ensures !IsSpace(s[k]) { assert s[k] == s[i..e][k - i] && w[k - i] in w; }
    if |ws| > 1 {
      assert s[e] == s[i..][|w|] == ' ';
      assert s[e + 1..] == s[i..][|w| + 1..] == Line(ws[1..]);
    }
    WordEndAt(s, i, e);
  }

  lemma WordsStep(s: string, i: nat, ws: seq<string>, max: nat)
    requires i <= |s| && ws != [] && s[i..] == Line(ws) && AllWords(ws) && max > 0
    ensures var next := i + |ws[0]| + if |ws| == 1 then 0 else 1;
      && next <= |s| && s[next..] == Line(ws[1..]) && AllWords(ws[1..])
      && Words(s, i, max) == [ws[0]] + Words(s, next, max - 1)
  {
    hide *;
    FirstWord(s, i, ws);
    WordsNext(s, i, max);
    if |ws| == 1 { LineOfLast(s, ws); }
    RestAreWords(ws);
  }

  lemma LineOfLast(s: string, ws: seq<string>)
    requires |ws| == 1
    ensures s[|s|..] == Line(ws[1..])
  {
  }

  lemma RestAreWords(ws: seq<string>)
    requires ws != [] && AllWords(ws)
    ensures AllWords(ws[1..])
  {
  }

  lemma {:induction false} WordsOfLine(s: string, i: nat, ws: seq<string>, max: nat)
    requires i <= |s| && s[i..] == Line(ws) && |ws| <= max && AllWords(ws)
    ensures Words(s, i, max) == ws
    decreases |ws|
  {
    hide *;
    if ws == [] {
      LineOfNone(s, i);
      WordsEnd(s, i, max);
    } else {
      WordsStep(s, i, ws, max);
      WordsOfLine(s, i + |ws[0]| + if |ws| == 1 then 0 else 1, ws[1..], max - 1);
      HeadAndTail(ws);
    }
  }

  lemma LineOfNone(s: string, i: nat)
    requires i <= |s| && s[i..] == Line([])
    ensures i == |s|
  {
    assert |s[i..]| == |s| - i;
  }

  lemma HeadAndTail(ws: seq<string>)
    requires ws != []
    ensures ws == [ws[0]] + ws[1..] && (|ws| == 1 ==> ws[1..] == [])
  {
  }

  // Outside blocks the words of a written line are taken as a directive; behind a
  // comment character anything may follow.
  lemma WrittenLine(st: Parser, ws: seq<string>, comment: string)
    requires st.skipping == [] && Writable(ws) && |Line(ws)| + |comment| < 1024
    requires comment == [] || (comment[0] in {'#', ';'} && !IsSpace(comment[|comment| - 1]))
    ensures Step(st, Line(ws) + comment) == Directive(st, ws)
  {
    var l := Line(ws);
    var raw := l + comment;
    LineEnds(ws);
    assert Word(ws[0]);
    TrimmedAlready(l);
    if comment != [] { assert raw[|raw| - 1] == comment[|comment| - 1]; }
    TrimmedAlready(raw);
    CommentStripped(l, comment);
    assert l[0..] == l;
    WordsOfLine(l, 0, ws, MAX_TOKENS);
    hide Words, Directive, Line, Trimmed, StripComment, TagOf;
  }

  lemma CommentStripped(l: string, comment: string)
    requires '#' !in l && ';' !in l && (comment == [] || comment[0] in {'#', ';'})
    ensures StripComment(l + comment) == l
  {
    var raw := l + comment;
    FirstAtOrAfter(l, comment, '#', 0);
    FirstAtOrAfter(l, comment, ';', 0);
    if comment != [] { assert raw[|l|] == comment[0]; }
    hide IndexOf;
    assert raw[..|l|] == l;
  }

  lemma {:induction false} FirstAtOrAfter(l: string, comment: string, c: char, i: nat)
    requires c !in l && i <= |l|
    ensures |l| <= IndexOf(l + comment, c, i) <= |l| + |comment|
    ensures comment == [] || comment[0] == c ==> IndexOf(l + comment, c, i) == |l|
    decreases |l| - i
  {
    if i < |l| {
      assert (l + comment)[i] == l[i] && l[i] in l;
      FirstAtOrAfter(l, comment, c, i + 1);
    }
  }

  // Names that agree but for case agree in length and first letter.
  lemma NamesByKey()
    ensures forall a, b :: CiEq(a, b) && a != [] ==> |a| == |b| && Lower(a[0]) == Lower(b[0])
    ensures forall a :: CiEq(a, a)
  {
  }

  lemma RemoteTaken(st: Parser, w: seq<string>)
    requires |w| >= 2 && w[0] == "remote"
    ensures IsRemote(w) && Directive(st, w) == st.(out := AddRemote(st.out, RemoteOf(w, st.udp)))
  {
    NamesByKey();
    hide CiEq, Clip, IsTcp, PortCast, IntOf;
  }

  // What each directive sets; what is cut is cut to its buffer.
  lemma DefaultsMean(st: Parser, x: string)
    ensures Directive(st, ["proto", x]) == st.(udp := !IsTcp(x))
    ensures Directive(st, ["port", x]) == st.(port := PortCast(x))
  {
    NamesByKey();
    hide CiEq, Clip, IsTcp, PortCast, IntOf;
  }

  lemma CipherMeans(st: Parser, x: string)
    ensures Directive(st, ["cipher", x])
         == if st.out.cipher == [] then st.(out := st.out.(cipher := Clip(x, 64))) else st
    ensures Directive(st, ["data-ciphers", x]) == Directive(st, ["cipher", x])
  {
    NamesByKey();
    hide CiEq, Clip, IsTcp, PortCast, IntOf;
  }

  lemma AuthAndDevMean(st: Parser, x: string)
    ensures Directive(st, ["auth", x]) == st.(out := st.out.(authDigest := Clip(x, 64)))
    ensures Directive(st, ["dev", x]) == st.(out := st.out.(dev := Clip(x, 16)))
  {
    NamesByKey();
    hide CiEq, Clip, IsTcp, PortCast, IntOf;
  }

  lemma FlagsMean(st: Parser)
    ensures Directive(st, ["auth-user-pass"]) == st.(out := st.out.(userPass := true))
    ensures Directive(st, ["redirect-gateway"]) == st.(out := st.out.(fullTunnel := true))
  {
    NamesByKey();
    hide CiEq, Clip, IsTcp, PortCast, IntOf;
  }

  lemma MtuAndDnsMean(st: Parser, x: string)
    ensures Directive(st, ["tun-mtu", x]) == st.(out := st.out.(mtu := IntOf(x)))
    ensures Directive(st, ["dhcp-option", "DNS", x]) == st.(out := st.out.(dns := Clip(x, 256)))
  {
    NamesByKey();
    hide CiEq, Clip, IsTcp, PortCast, IntOf;
  }

  // The transports that are TCP, and some that are not.
  lemma TcpNames()
    ensures IsTcp("tcp") && IsTcp("tcp-client") && IsTcp("tcp4") && IsTcp("tcp6") && IsTcp("TCP")
    ensures !IsTcp("udp") && !IsTcp("udp4") && !IsTcp("udp6")
  {
    NamesByKey();
    assert CiEq("TCP", "tcp");
    hide CiEq;
  }

  // The blocks that hold secrets.
  lemma SecretBlocks()
    ensures forall t :: t in {"key", "tls-auth", "tls-crypt", "tls-crypt-v2", "secret", "pkcs12"} ==> IsSecret(t)
    ensures forall t :: t in {"ca", "cert", "dh", "connection", "crl-verify"} ==> !IsSecret(t)
  {
    NamesByKey();
    hide CiEq;
  }

  // ---- remotes ------------------------------------------------------------------------------------------

  function RemoteLine(r: Remote): seq<string> {
    ["remote", r.host, Decimal(r.port), if r.udp then "udp" else "tcp"]
  }

  predicate CanWrite(r: Remote) {
    Word(r.host) && |r.host| < 256 && r.port != 0
  }

  lemma RemoteIsRead(st: Parser, r: Remote)
    requires CanWrite(r)
    ensures Directive(st, RemoteLine(r)) == st.(out := AddRemote(st.out, r))
  {
    hide Directive, CiEq, IsTcp, PortCast, Decimal;
    RemoteTaken(st, RemoteLine(r));
    PortOfNumber(r.port);
    TcpNames();
  }

  lemma {:induction false} ShortDecimal(n: nat)
    requires n < 65536
    ensures |Decimal(n)| <= 5
  {
    if n >= 10 { assert |Decimal(n / 10)| <= 4 by { ShortDecimal4(n / 10); } }
  }

  lemma ShortDecimal4(n: nat)
    requires n < 10000
    ensures |Decimal(n)| <= 4
  {
    if n >= 10 { assert |Decimal(n / 10)| <= 3 by { if n / 10 >= 10 { assert |Decimal(n / 100)| <= 2; } } }
  }

  lemma RemoteLineFits(r: Remote)
    requires CanWrite(r)
    ensures Writable(RemoteLine(r))
  {
    var ws := RemoteLine(r);
    ShortDecimal(r.port);
    hide Decimal;
    var d := Decimal(r.port);
    assert d[0] in d;
    assert Word(ws[0]) && Word(ws[1]) && Word(ws[2]) && Word(ws[3]);
    assert Line(ws[3..]) == ws[3] && Line(ws[2..]) == d + " " + ws[3];
    assert Line(ws[1..]) == r.host + " " + Line(ws[2..]) && Line(ws) == "remote" + " " + Line(ws[1..]);
  }

  function RemoteLines(rs: seq<Remote>): seq<string> {
    seq(|rs|, i requires 0 <= i < |rs| => Line(RemoteLine(rs[i])))
  }

  lemma {:induction false} RemotesAreRead(rs: seq<Remote>)
    requires forall r :: r in rs ==> CanWrite(r)
    ensures After(START, RemoteLines(rs))
         == START.(out := EMPTY.(endpoints := FirstN(rs, 8), truncated := |rs| > 8))
    decreases |rs|
  {
    hide Step, AddRemote, CanWrite, Line, RemoteLine;
    if rs != [] {
      var n := |rs| - 1;
      var st := After(START, RemoteLines(rs[..n]));
      assert RemoteLines(rs)[..n] == RemoteLines(rs[..n]);
      RemotesAreRead(rs[..n]);
      RemoteLineFits(rs[n]);
      assert Line(RemoteLine(rs[n])) + [] == Line(RemoteLine(rs[n]));
      WrittenLine(st, RemoteLine(rs[n]), []);
      RemoteIsRead(st, rs[n]);
      OneMoreRemote(rs, n);
    } else {
      assert RemoteLines(rs) == [];
    }
  }

  lemma OneMoreRemote(rs: seq<Remote>, n: nat)
    requires |rs| == n + 1 && CanWrite(rs[n])
    ensures AddRemote(EMPTY.(endpoints := FirstN(rs[..n], 8), truncated := n > 8), rs[n])
         == EMPTY.(endpoints := FirstN(rs, 8), truncated := n + 1 > 8)
  {
    if n < 8 { assert rs[..n] + [rs[n]] == rs; }
    if n > 8 { assert rs[..n][..8] == rs[..8]; }
  }

  // A config of remotes, each written with its host, port and transport, is read
  // back: the first eight of them, a flag when there were more, and a failure when
  // there were none.
  lemma WrittenRemotesAreReadBack(rs: seq<Remote>)
    requires forall r :: r in rs ==> CanWrite(r)
    ensures ParseLines(RemoteLines(rs))
         == (if rs == [] then ErrParse else Ok, EMPTY.(endpoints := FirstN(rs, 8), truncated := |rs| > 8))
  {
    RemotesAreRead(rs);
    var es := FirstN(rs, 8);
    forall i | 0 <= i < |es| ensures es[i].port != 0 { assert es[i] == rs[i] && rs[i] in rs; }
    assert FillPorts(es, START.port) == es;
    hide After, RemoteLines;
  }

  // A remote's host is cut to its buffer.
  lemma OneRemote(st: Parser, h: string)
    requires h != [] && st.out.endpoints == []
    ensures Directive(st, ["remote", h]) == st.(out := st.out.(endpoints := [Remote(Clip(h, 256), 0, st.udp)]))
  {
    hide Directive, CiEq;
    RemoteTaken(st, ["remote", h]);
  }

  // A remote that names no port or transport takes those in force: the transport
  // named before it, and the port named anywhere, 1194 when none is.
  lemma RemoteInForce(st: Parser, h: string)
    requires Word(h) && |h| < 256 && st.out.endpoints == []
    ensures Finish(Directive(st, ["remote", h])).1.endpoints
         == [Remote(h, if st.port == 0 then 1194 else st.port, st.udp)]
  {
    assert h != [] && Clip(h, 256) == h;
    hide *;
    OneRemote(st, h);
    FinishOne(Directive(st, ["remote", h]), h, st.udp);
  }

  // UDP on port 1194 to start with; "proto" sets the transport.
  lemma StartsOnUdp1194(x: string)
    ensures START.udp && START.port == 1194 && START.out.endpoints == []
    ensures Directive(START, ["proto", x]) == START.(udp := !IsTcp(x))
  {
    hide Directive, IsTcp;
    DefaultsMean(START, x);
  }

  // "port" sets the port also of a remote that stands before it.
  lemma LatePortApplies(st: Parser, h: string, udp: bool, n: Port)
    requires st.out.endpoints == [Remote(h, 0, udp)]
    ensures Finish(Directive(st, ["port", Decimal(n)])).1.endpoints == [Remote(h, if n == 0 then 1194 else n, udp)]
  {
    hide *;
    DefaultsMean(st, Decimal(n));
    PortOfNumber(n);
    FinishOne(Directive(st, ["port", Decimal(n)]), h, udp);
  }

  lemma FinishOne(st: Parser, h: string, udp: bool)
    requires st.out.endpoints == [Remote(h, 0, udp)]
    ensures Finish(st).1.endpoints == [Remote(h, if st.port == 0 then 1194 else st.port, udp)]
  {
  }

  // An MTU is read as the number it is.
  lemma MtuIsRead(st: Parser, n: nat)
    requires n <= 2147483647
    ensures Directive(st, ["tun-mtu", Decimal(n)]) == st.(out := st.out.(mtu := n))
  {
    MtuAndDnsMean(st, Decimal(n));
    PlainNumber(n);
    hide Directive, Strtol, Decimal;
  }

  // ---- written blocks --------------------------------------------------------------------------------

  // A tag as it may be written between brackets.
  predicate Tag(tag: string) {
    0 < |tag| < 63 && tag[0] != '/' && '>' !in tag
  }

  lemma TagIsRead(tag: string)
    requires Tag(tag)
    ensures TagOf(tag + ">") == tag
  {
    var t := tag + ">";
    forall k | 0 <= k < |tag| ensures t[k] != '>' { assert t[k] == tag[k] && tag[k] in tag; }
    IndexAt(t, '>', 0, |tag|);
    hide IndexOf;
  }

  // An opening line starts skipping to its own closing line, whatever the tag, and
  // notes whether it holds secrets; only "connection" is read through.
  lemma WrittenBlock(st: Parser, tag: string)
    requires Tag(tag)
    ensures st.skipping == [] ==>
      Step(st, "<" + tag + ">")
      == (if tag == "connection" then st
          else st.(skipping := tag, out := st.out.(inlineSecrets := st.out.inlineSecrets || IsSecret(tag))))
    ensures Step(st, "</" + tag + ">") == if st.skipping == tag then st.(skipping := []) else st
  {
    TagIsRead(tag);
    var open, close := "<" + tag + ">", "</" + tag + ">";
    TrimmedAlready(open);
    TrimmedAlready(close);
    assert open[1..] == tag + ">" && close[2..] == tag + ">";
    hide Trimmed, TagOf, IsSecret, Directive;
  }

  // ---- the edges of the buffers ---------------------------------------------------------------------

  // A line counts up to its first 1023 characters, a tag up to its first 63.
  lemma LongLineIsCut(st: Parser, raw: string, tag: string)
    requires |raw| >= 1023 && |tag| >= 63 && '>' !in tag
    ensures Step(st, raw) == Step(st, raw[..1023])
    ensures TagOf(tag) == tag[..63]
  {
    assert Clip(raw, MAX_LINE) == raw[..1023] == Clip(raw[..1023], MAX_LINE);
    AbsentIndex(tag[..63], '>', 0);
    hide Directive, OpenBlock, Trimmed;
  }

  // The three bytes of a UTF-8 byte order mark are skipped, and nothing else is.
  lemma MarkIsSkipped(t: string)
    ensures var mark := [0xEF as char, 0xBB as char, 0xBF as char];
      && LinesFrom(mark + t, BomLength(mark + t)) == LinesFrom(t, 0)
      && (!(mark <= t) ==> BomLength(t) == 0)
  {
    var mark := [0xEF as char, 0xBB as char, 0xBF as char];
    LinesOfRest(mark, t, 0);
    hide LinesFrom;
    if |t| >= 3 { assert t[..3] == [t[0], t[1], t[2]]; }
  }
}
