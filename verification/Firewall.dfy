/** The firewall of np_project4/socks_server.cpp and np_project4/utils.cpp. */
module Firewall {
  import opened Decimals
  import opened SocksCodec
  import opened Splitting

  // ------------------------------------------------------------------ matching strings

  /** Part by part the mask is equal or `*`. */
  predicate Matches(parts: seq<string>, mask: seq<string>) {
    |parts| <= |mask| && forall i :: 0 <= i < |parts| ==> parts[i] == mask[i] || mask[i] == "*"
  }

  /** The mask does not run out of parts before the comparison is over. */
  predicate Comparable(parts: seq<string>, mask: seq<string>) {
    |parts| <= |mask| || exists i :: 0 <= i < |mask| && parts[i] != mask[i] && mask[i] != "*"
  }

  /** `compare_ip` */
  method CompareIp(realIp: string, ipMask: string) returns (r: bool)
    requires Comparable(Tokens(realIp, "."), Tokens(ipMask, "."))
    ensures r == Matches(Tokens(realIp, "."), Tokens(ipMask, "."))
  {
    var realIpSplit := SplitWithDelims(realIp, ".");
    var ipMaskSplit := SplitWithDelims(ipMask, ".");
    var i := 0;
    while i < |realIpSplit|
      invariant i <= |realIpSplit| && i <= |ipMaskSplit|
      invariant forall k :: 0 <= k < i ==> realIpSplit[k] == ipMaskSplit[k] || ipMaskSplit[k] == "*"
    {
      var curr, comp := realIpSplit[i], ipMaskSplit[i];
      if curr != comp && comp != "*" {
        return false;
      }
      i := i + 1;
    }
    return true;
  }

  predicate IsBlank(line: string) {
    line == "" || line == "\r"
  }

  function ModeOf(mode: string): bv8 {
    if mode == "c" then CONNECT else BIND
  }

  /**
   A line with three words; a `permit` has a mode of `c` or `b` and, if that is the mode asked for, a mask that fits
   the address.
   */
  predicate LineOk(line: string, dstIp: string, socksMode: bv8) {
    IsBlank(line) ||
    var words := Tokens(line, " ");
    && |words| >= 3
    && (words[0] == "permit" ==>
      && (words[1] == "c" || words[1] == "b")
      && (ModeOf(words[1]) == socksMode ==> Comparable(Tokens(dstIp, "."), Tokens(words[2], "."))))
  }

  /** The line lets an address pass. */
  predicate Permits(line: string, dstIp: string, socksMode: bv8) {
    !IsBlank(line) && LineOk(line, dstIp, socksMode) &&
    var words := Tokens(line, " ");
    words[0] == "permit" && ModeOf(words[1]) == socksMode && Matches(Tokens(dstIp, "."), Tokens(words[2], "."))
  }

  /** No line before line `i` lets the address pass, so that the code reads that line. */
  predicate IsRead(conf: seq<string>, i: nat, dstIp: string, socksMode: bv8) {
    i < |conf| && forall k :: 0 <= k < i ==> !Permits(conf[k], dstIp, socksMode)
  }

  /**
   `get_access_mode`: the file is read up to the first line that lets the address pass; lines behind it may be
   anything.
   */
  method GetAccessMode(conf: seq<string>, dstIp: string, socksMode: bv8) returns (accept: bool)
    requires forall i: nat :: IsRead(conf, i, dstIp, socksMode) ==> LineOk(conf[i], dstIp, socksMode)
    ensures accept <==> exists i :: 0 <= i < |conf| && Permits(conf[i], dstIp, socksMode)
  {
    hide Tokens, Matches, Comparable;
    var next := 0;
    while next < |conf|
      invariant next <= |conf| && forall i :: 0 <= i < next ==> !Permits(conf[i], dstIp, socksMode)
    {
      var line := conf[next];
      assert IsRead(conf, next, dstIp, socksMode) && LineOk(line, dstIp, socksMode);
      if line != "" && line != "\r" {
        var splitString := SplitWithDelims(line, " ");
        var action, mode, ipMask := splitString[0], splitString[1], splitString[2];
        if |splitString| != 0 {
          if action == "permit" {
            var modeNum := if mode == "c" then CONNECT else BIND;
            if modeNum == socksMode {
              var same := CompareIp(dstIp, ipMask);
              if same {
                assert Permits(conf[next], dstIp, socksMode);
                return true;
              }
            }
          }
        }
      }
      assert !Permits(conf[next], dstIp, socksMode);
      next := next + 1;
    }
    return false;
  }

  // ------------------------------------------------------------------ rules about bytes

  datatype Part = Any | Byte(value: bv8)

  datatype Rule =
    | Blank(carriageReturn: bool)
    | Rule(action: string, connect: bool, mask: seq<Part>)

  predicate Fits(ip: seq<bv8>, mask: seq<Part>) {
    |ip| == |mask| == 4 && forall i :: 0 <= i < 4 ==> mask[i] == Any || mask[i] == Byte(ip[i])
  }

  /** What a rule says, without strings. */
  predicate Allows(rule: Rule, ip: seq<bv8>, mode: bv8) {
    rule.Rule? && rule.action == "permit" && mode == (if rule.connect then CONNECT else BIND) && Fits(ip, rule.mask)
  }

  predicate RuleOk(rule: Rule) {
    rule.Rule? ==> IsWord(rule.action, " ") && |rule.mask| == 4
  }

  function PartText(part: Part): string {
    match part
    case Any => "*"
    case Byte(value) => Decimal(value as nat)
  }

  function MaskParts(mask: seq<Part>): seq<string> {
    if mask == [] then [] else [PartText(mask[0])] + MaskParts(mask[1..])
  }

  /** `to_string` of every byte, joined by points. */
  function Dotted(ip: seq<bv8>): string {
    Join(MaskParts(Bytes(ip)), '.')
  }

  function Bytes(ip: seq<bv8>): seq<Part> {
    if ip == [] then [] else [Byte(ip[0])] + Bytes(ip[1..])
  }

  /** The line of the configuration file for a rule. */
  function RuleText(rule: Rule): string {
    match rule
    case Blank(cr) => if cr then "\r" else ""
    case Rule(action, connect, mask) =>
      Join([action, if connect then "c" else "b", Join(MaskParts(mask), '.')], ' ')
  }

  lemma PartIsWord(part: Part)
    ensures IsWord(PartText(part), ".") && IsWord(PartText(part), " ")
  {
    var w := PartText(part);
    forall k | 0 <= k < |w| ensures w[k] !in "." && w[k] !in " " {
      assert part.Byte? ==> IsDigit(w[k]);
    }
  }

  lemma {:induction false} PartsAre(mask: seq<Part>)
    ensures |MaskParts(mask)| == |mask| && AreWords(MaskParts(mask), ".")
    ensures forall i :: 0 <= i < |mask| ==> MaskParts(mask)[i] == PartText(mask[i])
    ensures forall i :: 0 <= i < |mask| ==> IsWord(MaskParts(mask)[i], " ")
  {
    if mask != [] {
      PartIsWord(mask[0]);
      PartsAre(mask[1..]);
    }
  }

  lemma {:induction false} BytesAre(ip: seq<bv8>)
    ensures |Bytes(ip)| == |ip| && forall i :: 0 <= i < |ip| ==> Bytes(ip)[i] == Byte(ip[i])
  {
    if ip != [] {
      BytesAre(ip[1..]);
    }
  }

  /** Splitting a mask gives back its parts. */
  lemma MaskSplits(mask: seq<Part>)
    ensures Tokens(Join(MaskParts(mask), '.'), ".") == MaskParts(mask)
  {
    PartsAre(mask);
    TokensJoin(MaskParts(mask), '.', "", ".");
    assert Join(MaskParts(mask), '.') + "" == Join(MaskParts(mask), '.');
    assert MaskParts(mask) + [] == MaskParts(mask);
  }

  /** Parts are the same string only if they are the same, so strings match as the bytes do. */
  lemma PartMatches(byte: bv8, part: Part)
    ensures PartText(Byte(byte)) == PartText(part) || PartText(part) == "*" <==> part == Any || part == Byte(byte)
  {
    hide Decimal;
    if part.Byte? {
      DecimalInjective(byte as nat, part.value as nat);
      SameByte(byte, part.value);
      assert Decimal(part.value as nat)[0] != '*';
    }
  }

  lemma SameByte(a: bv8, b: bv8)
    ensures a as nat == b as nat <==> a == b
  {
    assert (a as nat) as bv8 == a && (b as nat) as bv8 == b;
  }

  lemma MaskMatches(ip: seq<bv8>, mask: seq<Part>)
    requires |ip| == |mask| == 4
    ensures Matches(Tokens(Dotted(ip), "."), Tokens(Join(MaskParts(mask), '.'), ".")) <==> Fits(ip, mask)
  {
    MaskSplits(Bytes(ip));
    MaskSplits(mask);
    BytesAre(ip);
    PartsAre(Bytes(ip));
    PartsAre(mask);
    forall i | 0 <= i < 4
      ensures PartText(Byte(ip[i])) == PartText(mask[i]) || PartText(mask[i]) == "*"
              <==> mask[i] == Any || mask[i] == Byte(ip[i])
    {
      PartMatches(ip[i], mask[i]);
    }
  }

  /** The words of a rule's line. */
  lemma RuleSplits(rule: Rule)
    requires rule.Rule? && RuleOk(rule)
    ensures !IsBlank(RuleText(rule))
    ensures Tokens(RuleText(rule), " ") ==
            [rule.action, if rule.connect then "c" else "b", Join(MaskParts(rule.mask), '.')]
  {
    var mask := Join(MaskParts(rule.mask), '.');
    var words := [rule.action, if rule.connect then "c" else "b", mask];
    MaskIsWord(rule.mask);
    TokensJoin(words, ' ', "", " ");
    assert Join(words, ' ') + "" == Join(words, ' ') && words + [] == words;
    assert |Join(words, ' ')| >= |rule.action| + 1 + |Join(words[1..], ' ')|;
    assert |Join(words[1..], ' ')| >= 1;
  }

  lemma {:induction false} MaskIsWord(mask: seq<Part>)
    requires mask != []
    ensures IsWord(Join(MaskParts(mask), '.'), " ")
  {
    PartsAre(mask);
    var parts := MaskParts(mask);
    JoinLacks(parts, '.', " ");
    assert parts[0] != "" && |Join(parts, '.')| >= |parts[0]|;
  }

  /** A written rule lets an address pass if and only if the rule allows it. */
  lemma RulePermits(rule: Rule, ip: seq<bv8>, mode: bv8)
    requires RuleOk(rule) && |ip| == 4
    ensures var line, dstIp := RuleText(rule), Dotted(ip);
      LineOk(line, dstIp, mode) && (Permits(line, dstIp, mode) <==> Allows(rule, ip, mode))
  {
    hide Tokens, Join, MaskParts;
    if rule.Rule? {
      RuleSplits(rule);
      MaskMatches(ip, rule.mask);
      MaskSplits(Bytes(ip));
      MaskSplits(rule.mask);
      PartsAre(Bytes(ip));
      PartsAre(rule.mask);
      BytesAre(ip);
    }
  }

  /** A rule that is written `permit c 140.113.*.*` lets that network be connected to, and nothing else. */
  lemma RuleExample(ip: seq<bv8>, mode: bv8)
    requires |ip| == 4
    ensures LineOk("permit c 140.113.*.*", Dotted(ip), mode)
    ensures Permits("permit c 140.113.*.*", Dotted(ip), mode) <==> mode == 1 && ip[0] == 140 && ip[1] == 113
  {
    var mask := [Byte(140), Byte(113), Any, Any];
    MaskExample();
    JoinThree("permit", "c", Join(MaskParts(mask), '.'));
    assert "permit" + " " + "c" + " " + "140.113.*.*" == "permit c 140.113.*.*";
    hide Join, MaskParts, Permits, LineOk, Dotted, Allows;
    RulePermits(Rule("permit", true, mask), ip, mode);
    ExampleAllows(ip, mode);
  }

  lemma ExampleAllows(ip: seq<bv8>, mode: bv8)
    requires |ip| == 4
    ensures Allows(Rule("permit", true, [Byte(140), Byte(113), Any, Any]), ip, mode) <==>
              mode == 1 && ip[0] == 140 && ip[1] == 113
  {
    var mask := [Byte(140), Byte(113), Any, Any];
    assert Fits(ip, mask) <==> ip[0] == 140 && ip[1] == 113 by {
      assert mask[0] == Byte(140) && mask[1] == Byte(113) && mask[2] == Any && mask[3] == Any;
    }
  }

  lemma MaskExample()
    ensures Join(MaskParts([Byte(140), Byte(113), Any, Any]), '.') == "140.113.*.*"
  {
    FourParts(Byte(140), Byte(113), Any, Any);
    JoinFour("140", "113", "*", "*");
    Numbers();
    hide Join, MaskParts, Decimal;
    assert "140" + "." + "113" + "." + "*" + "." + "*" == "140.113.*.*";
  }

  lemma Numbers()
    ensures Decimal(140) == "140" && Decimal(113) == "113"
  {
    assert Decimal(1) == "1" && Decimal(14) == "14" && Decimal(11) == "11";
  }

  lemma FourParts(a: Part, b: Part, c: Part, d: Part)
    ensures MaskParts([a, b, c, d]) == [PartText(a), PartText(b), PartText(c), PartText(d)]
  {
    PartsAre([a, b, c, d]);
  }

  lemma JoinFour(a: string, b: string, c: string, d: string)
    ensures Join([a, b, c, d], '.') == a + "." + b + "." + c + "." + d
  {
    var four, three, two := [a, b, c, d], [b, c, d], [c, d];
    assert four[1..] == three && three[1..] == two && two[1..] == [d];
    assert Join(two, '.') == c + ['.'] + Join([d], '.');
    assert Join(three, '.') == b + ['.'] + Join(two, '.');
    assert Join(four, '.') == a + ['.'] + Join(three, '.');
  }

  function RuleTexts(rules: seq<Rule>): seq<string> {
    seq(|rules|, i requires 0 <= i < |rules| => RuleText(rules[i]))
  }

  predicate Allowed(rules: seq<Rule>, ip: seq<bv8>, mode: bv8) {
    exists i :: 0 <= i < |rules| && Allows(rules[i], ip, mode)
  }

  /**
   Agreement: some line lets an address pass if and only if some `permit` rule of its mode matches it byte by byte.
   */
  lemma Agreement(rules: seq<Rule>, ip: seq<bv8>, mode: bv8)
    requires |ip| == 4 && forall i :: 0 <= i < |rules| ==> RuleOk(rules[i])
    ensures var conf, dstIp := RuleTexts(rules), Dotted(ip);
      && (forall i :: 0 <= i < |conf| ==> LineOk(conf[i], dstIp, mode))
      && ((exists i :: 0 <= i < |conf| && Permits(conf[i], dstIp, mode)) <==> Allowed(rules, ip, mode))
  {
    hide Permits, Allows, LineOk, RuleText, RuleOk;
    var conf, dstIp := RuleTexts(rules), Dotted(ip);
    forall i | 0 <= i < |rules|
      ensures LineOk(conf[i], dstIp, mode) && (Permits(conf[i], dstIp, mode) <==> Allows(rules[i], ip, mode))
    {
      assert RuleOk(rules[i]);
      RulePermits(rules[i], ip, mode);
    }
    if i :| 0 <= i < |conf| && Permits(conf[i], dstIp, mode) {
      assert Allows(rules[i], ip, mode);
    }
    if i :| 0 <= i < |rules| && Allows(rules[i], ip, mode) {
      assert Permits(conf[i], dstIp, mode);
    }
  }

  /** Some line of the file lets the address pass: the answer of `get_access_mode`. */
  ghost predicate Passes(conf: seq<string>, dstIp: string, mode: bv8) {
    exists i :: 0 <= i < |conf| && Permits(conf[i], dstIp, mode)
  }

  /**
   More lines never shut an address out, and neither their order nor their number matters: the answer over the
   lines of `few` being yes, so is the one over the lines of `many`.
   */
  lemma MoreRules(few: seq<Rule>, many: seq<Rule>, ip: seq<bv8>, mode: bv8)
    requires |ip| == 4 && forall i :: 0 <= i < |many| ==> RuleOk(many[i])
    requires forall i :: 0 <= i < |few| ==> few[i] in many
    ensures forall i :: 0 <= i < |few| ==> LineOk(RuleTexts(few)[i], Dotted(ip), mode)
    ensures forall i :: 0 <= i < |many| ==> LineOk(RuleTexts(many)[i], Dotted(ip), mode)
    ensures Passes(RuleTexts(few), Dotted(ip), mode) ==> Passes(RuleTexts(many), Dotted(ip), mode)
  {
    Agreement(few, ip, mode);
    Agreement(many, ip, mode);
    hide LineOk, Permits, RuleText, Allows, RuleOk;
    if i :| 0 <= i < |few| && Allows(few[i], ip, mode) {
      var j :| 0 <= j < |many| && many[j] == few[i];
      assert Allows(many[j], ip, mode);
    }
  }

  /** The line of a rule in a file with CR LF line ends. */
  function WithReturn(rule: Rule): string {
    RuleText(rule) + "\r"
  }

  /**
   In such a file no rule lets anything pass: the last part of its mask ends with the CR, and is neither `*` nor
   a number.
   */
  lemma ReturnPermitsNothing(rule: Rule, ip: seq<bv8>, mode: bv8)
    requires rule.Rule? && RuleOk(rule) && |ip| == 4
    ensures LineOk(WithReturn(rule), Dotted(ip), mode) && !Permits(WithReturn(rule), Dotted(ip), mode)
  {
    hide Tokens, Join, MaskParts;
    var mask, parts := Join(MaskParts(rule.mask), '.'), MaskParts(rule.mask);
    ReturnSplits(rule);
    MaskSplits(Bytes(ip));
    PartsAre(Bytes(ip));
    BytesAre(ip);
    ReturnMaskSplits(rule.mask);
    var last := PartText(rule.mask[3]) + "\r";
    assert last[|last| - 1] == '\r';
    ByteHasNoReturn(ip[3]);
    var address := Tokens(Dotted(ip), ".");
    var text := Tokens(mask + "\r", ".");
    assert text[3] == last && address[3] != last && last != "*";
  }

  lemma ByteHasNoReturn(byte: bv8)
    ensures '\r' !in PartText(Byte(byte))
  {
    var s := PartText(Byte(byte));
    assert forall k :: 0 <= k < |s| ==> IsDigit(s[k]);
  }

  /** The words of a rule's line that ends with a CR. */
  lemma ReturnSplits(rule: Rule)
    requires rule.Rule? && RuleOk(rule)
    ensures !IsBlank(WithReturn(rule))
    ensures Tokens(WithReturn(rule), " ") ==
            [rule.action, if rule.connect then "c" else "b", Join(MaskParts(rule.mask), '.') + "\r"]
  {
    var mask, letter := Join(MaskParts(rule.mask), '.'), if rule.connect then "c" else "b";
    var words := [rule.action, letter, mask + "\r"];
    MaskIsWord(rule.mask);
    assert IsWord(mask + "\r", " ");
    TokensJoin(words, ' ', "", " ");
    assert Join(words, ' ') + "" == Join(words, ' ') && words + [] == words;
    JoinThree(rule.action, letter, mask);
    JoinThree(rule.action, letter, mask + "\r");
    assert Join(words, ' ') == WithReturn(rule);
  }

  lemma JoinThree(a: string, b: string, c: string)
    ensures Join([a, b, c], ' ') == a + " " + b + " " + c
  {
    var three, two, one := [a, b, c], [b, c], [c];
    assert three[1..] == two && two[1..] == one;
    assert Join(two, ' ') == b + [' '] + Join(one, ' ');
    assert Join(three, ' ') == a + [' '] + Join(two, ' ');
  }

  /** The parts of a mask that ends with a CR. */
  lemma ReturnMaskSplits(mask: seq<Part>)
    requires |mask| == 4
    ensures var text := Tokens(Join(MaskParts(mask), '.') + "\r", ".");
      |text| == 4 && text[3] == PartText(mask[3]) + "\r"
  {
    PartsAre(mask);
    var parts := MaskParts(mask);
    var more := parts[..3] + [parts[3] + "\r"];
    assert AreWords(more, ".");
    TokensJoin(more, '.', "", ".");
    assert Join(more, '.') + "" == Join(more, '.') && more + [] == more;
    JoinLast(parts, "\r");
  }

  lemma {:induction false} JoinLast(ws: seq<string>, end: string)
    requires ws != []
    ensures Join(ws[..|ws| - 1] + [ws[|ws| - 1] + end], '.') == Join(ws, '.') + end
  {
    var more := ws[..|ws| - 1] + [ws[|ws| - 1] + end];
    if |ws| > 1 {
      JoinLast(ws[1..], end);
      assert more[1..] == ws[1..][..|ws| - 2] + [ws[1..][|ws| - 2] + end];
    }
  }

  // ------------------------------------------------------------------ the answer to a request

  /** Where a request goes: its own address, or the one its domain was resolved to. */
  function Destination(r: Parsed, resolved: seq<bv8>): seq<bv8>
    requires !r.NotSupported?
  {
    if r.ToDomain? then resolved else r.ip
  }

  /** What the network does for a session: what a domain is resolved to, and which calls succeed. */
  datatype Network = Network(resolved: seq<bv8>, connects: bool, listens: bool, named: bool, bindPort: bv16,
                             accepts: bool)

  /** `connectTCP` succeeds: it takes port 0 and the address 255.255.255.255 for errors. */
  predicate Connected(ip: seq<bv8>, port: bv16, net: Network) {
    net.connects && port != 0 && ip != [255, 255, 255, 255]
  }

  function Reply(code: bv8, port: bv16): (r: seq<bv8>)
    ensures |r| == 8 && r[1] == code && PortOf(r[2], r[3]) == port
  {
    PortRoundTrip(port);
    [0, code, High(port), Low(port), 0, 0, 0, 0]
  }

  lemma NoPort()
    ensures High(0) == 0 && Low(0) == 0
  {
  }

  /** The replies to a request: none if a call fails, and for a bind a second one when somebody has connected. */
  function Replies(r: Parsed, granted: bool, net: Network): seq<seq<bv8>>
    requires !r.NotSupported?
  {
    if !granted then [Reply(0x5B, 0)]
    else if r.cd == CONNECT then
      if Connected(Destination(r, net.resolved), r.port, net) then [Reply(0x5A, 0)] else []
    else if r.cd == BIND && net.listens && net.named then
      [Reply(0x5A, net.bindPort)] + if net.accepts then [Reply(0x5A, net.bindPort)] else []
    else []
  }

  /**
   What the replies say: a request that is not granted gets one reply, 0x5B and zeros; every reply to one that is
   granted says 0x5A. A connect that goes through has one reply; a bind that listens has one, and a second when somebody
   connects, and they name the port it listens on.
   */
  predicate Answers(cd: bv8, granted: bool, through: bool, net: Network, replies: seq<seq<bv8>>) {
    && (!granted ==> replies == [[0, 0x5B, 0, 0, 0, 0, 0, 0]])
    && (granted && cd == 1 ==> replies == if through then [[0, 0x5A, 0, 0, 0, 0, 0, 0]] else [])
    && (granted && cd == 2 ==>
          && |replies| == (if net.listens && net.named then if net.accepts then 2 else 1 else 0)
          && forall k :: 0 <= k < |replies| ==>
               && |replies[k]| == 8 && replies[k][0] == 0 && replies[k][1] == 0x5A && replies[k][4..] == [0, 0, 0, 0]
               && InOrder(net.bindPort, replies[k][2], replies[k][3]))
  }

  lemma RepliesMean(r: Parsed, granted: bool, net: Network)
    requires !r.NotSupported?
    ensures Answers(r.cd, granted, Connected(Destination(r, net.resolved), r.port, net), net, Replies(r, granted, net))
  {
    NoPort();
    BytesMean(net.bindPort);
    hide High, Low, InOrder, PortOf;
    assert Reply(0x5B, 0) == [0, 0x5B, 0, 0, 0, 0, 0, 0] && Reply(0x5A, 0) == [0, 0x5A, 0, 0, 0, 0, 0, 0];
    assert Reply(0x5A, net.bindPort) == [0, 0x5A, High(net.bindPort), Low(net.bindPort), 0, 0, 0, 0];
  }

  lemma IsReply(reply: seq<bv8>, code: bv8, port: bv16)
    requires reply == [0, code, High(port), Low(port), 0, 0, 0, 0]
    ensures reply == Reply(code, port)
  {
  }

  /** What `run` writes to the client once the firewall has answered. */
  method Respond(r: Parsed, permission: bool, net: Network) returns (replies: seq<seq<bv8>>, relays: bool)
    requires !r.NotSupported? && (permission ==> r.cd == CONNECT || r.cd == BIND)
    ensures replies == Replies(r, permission, net)
    ensures relays <==> permission && |replies| == if r.cd == CONNECT then 1 else 2
  {
    replies, relays := [], false;
    var reply: seq<bv8> := [0, 0, 0, 0, 0, 0, 0, 0];
    NoPort();
    hide High, Low, PortOf, Reply, Connected;
    if permission {
      reply := reply[1 := 0x5A];
      if r.cd == CONNECT {
        if Connected(Destination(r, net.resolved), r.port, net) {
          IsReply(reply, 0x5A, 0);
          replies := [reply];
          relays := true;
        }
      } else if r.cd == BIND {
        if net.listens && net.named {
          reply := reply[2 := High(net.bindPort)];
          reply := reply[3 := Low(net.bindPort)];
          IsReply(reply, 0x5A, net.bindPort);
          replies := [reply];
          if net.accepts {
            replies := replies + [reply];
            relays := true;
          }
        }
      }
    } else {
      reply := reply[1 := 0x5B];
      IsReply(reply, 0x5B, 0);
      replies := [reply];
    }
  }

  /**
   `socks_session::run` up to where it relays data: the replies it writes to the client. What is granted is what the
   rules allow for the decoded destination, never another command, and data is relayed exactly behind the last reply
   of a request that is granted and goes through.
   */
  method Answer(request: array<bv8>, rules: seq<Rule>, net: Network)
    returns (replies: seq<seq<bv8>>, relays: bool)
    requires Decodable(request[..]) && |net.resolved| == 4
    requires forall i :: 0 <= i < |rules| ==> RuleOk(rules[i])
    ensures var r := Decode(request[..]);
      if r.NotSupported? then replies == [] && !relays
      else
        var granted := Allowed(rules, Destination(r, net.resolved), r.cd);
        && (granted ==> r.cd == CONNECT || r.cd == BIND)
        && replies == Replies(r, granted, net)
        && Answers(r.cd, granted, net.connects && r.port != 0 && Destination(r, net.resolved) != [255, 255, 255, 255],
                   net, replies)
        && (relays <==> granted && |replies| == if r.cd == CONNECT then 1 else 2)
  {
    replies, relays := [], false;
    hide Replies, Reply, Answers, InOrder, Allowed;
    var r := ParseRequest(request);
    if r.NotSupported? {
      return;
    }
    assert r.ToAddress? ==> |r.ip| == 4;
    hide Decode;
    var ip := if r.ToDomain? then net.resolved else r.ip;
    Agreement(rules, ip, r.cd);
    var permission := GetAccessMode(RuleTexts(rules), Dotted(ip), r.cd);
    RepliesMean(r, permission, net);
    replies, relays := Respond(r, permission, net);
  }
}
