/** A reader of RFC 1035 section 5.1 master files, written independently of the printer, and the proof
    that it reads a rendered zone back to the record map it was rendered from. */
module MasterFile {
  import opened Text
  import opened Zone

  // ---------------------------------------------------------------- lexical level

  datatype Token = Token(text: string, quoted: bool)

  datatype Mode = Gap | Word(acc: string) | Quote(acc: string) | Comment | Bad

  /** entries: the finished entries; fields: those of the entry being read; depth: open parentheses. */
  datatype Scan = Scan(entries: seq<seq<Token>>, fields: seq<Token>, mode: Mode, depth: nat)

  const START := Scan([], [], Gap, 0)

  /** A character that stands for itself in an unquoted field. */
  predicate Plain(c: char) {
    && c != ' ' && c != '\t' && c != '\n' && c != '\r'
    && c != '(' && c != ')' && c != ';' && c != '"' && c != '\\'
  }

  /** A character that may stand between quotes. */
  predicate Quotable(c: char) {
    c != '"' && c != '\\' && c != '\n'
  }

  predicate PlainWord(w: string) {
    w != [] && forall c :: c in w ==> Plain(c)
  }

  function EndOfLine(st: Scan): Scan {
    if st.depth > 0 then st.(mode := Gap)
    else if st.fields == [] then st.(mode := Gap)
    else Scan(st.entries + [st.fields], [], Gap, 0)
  }

  /** Reads one character outside words, quotes and comments. A blank that opens a line stands for an
      omitted owner name and becomes an empty field. */
  function InGap(st: Scan, c: char): Scan {
    if c == '\n' then EndOfLine(st)
    else if c == ' ' || c == '\t' || c == '\r' then
      if st.fields == [] && st.depth == 0 then st.(fields := [Token("", false)], mode := Gap) else st.(mode := Gap)
    else if c == '(' then st.(mode := Gap, depth := st.depth + 1)
    else if c == ')' then if st.depth == 0 then st.(mode := Bad) else st.(mode := Gap, depth := st.depth - 1)
    else if c == ';' then st.(mode := Comment)
    else if c == '"' then st.(mode := Quote(""))
    else if c == '\\' then st.(mode := Bad)
    else st.(mode := Word([c]))
  }

  function Step(st: Scan, c: char): Scan {
    match st.mode
    case Gap => InGap(st, c)
    case Word(acc) =>
      if Plain(c) then st.(mode := Word(acc + [c]))
      else InGap(st.(fields := st.fields + [Token(acc, false)], mode := Gap), c)
    case Quote(acc) =>
      if c == '"' then st.(fields := st.fields + [Token(acc, true)], mode := Gap)
      else if !Quotable(c) then st.(mode := Bad)
      else st.(mode := Quote(acc + [c]))
    case Comment => if c == '\n' then EndOfLine(st) else st
    case Bad => st
  }

  function Run(st: Scan, s: string): Scan
    decreases |s|
  {
    if s == [] then st else Run(Step(st, s[0]), s[1..])
  }

  // ---------------------------------------------------------------- entries

  datatype Entry =
    | Origin(domain: string)
    | DefaultTtl(ttl: nat)
    | Soa(ttl: nat, mname: string, rname: string, serial: nat, refresh: nat, retry: nat, expire: nat, minimum: nat)
    | ZoneNs(ttl: nat, host: string)
    | Resource(record: Record)

  predicate Bare(t: Token, text: string) {
    t == Token(text, false)
  }

  function Numbers(ts: seq<Token>): Option<seq<nat>> {
    if ts == [] then Some([])
    else
      match (ReadDecimal(ts[0].text), Numbers(ts[1..]))
      case (Some(n), Some(ns)) => Some([n] + ns)
      case _ => None
  }

  /** Entries of the full form: owner, lifetime, class, type, data. */
  function ReadResource(e: seq<Token>): Option<Entry>
    requires |e| == 5
  {
    match ReadDecimal(e[1].text)
    case None => None
    case Some(ttl) =>
      if !Bare(e[2], "IN") || e[0].quoted then None
      else if Bare(e[3], "TXT") && e[4].quoted then Some(Resource(Record(e[0].text, TYPE_TXT, ttl, e[4].text)))
      else if Bare(e[3], "A") && !e[4].quoted then Some(Resource(Record(e[0].text, TYPE_A, ttl, e[4].text)))
      else if Bare(e[3], "NS") && !e[4].quoted && e[4].text != [] && e[4].text[|e[4].text| - 1] == '.' then
        Some(if e[0].text == "@" then ZoneNs(ttl, e[4].text)
             else Resource(Record(e[0].text, TYPE_NS, ttl, e[4].text[..|e[4].text| - 1])))
      else None
  }

  function ReadSoa(e: seq<Token>): Option<Entry>
    requires |e| == 11
  {
    match (ReadDecimal(e[1].text), Numbers(e[6..]))
    case (Some(ttl), Some(ns)) =>
      if |ns| == 5 && Bare(e[0], "@") && Bare(e[2], "IN") && Bare(e[3], "SOA") && !e[4].quoted && !e[5].quoted then
        Some(Soa(ttl, e[4].text, e[5].text, ns[0], ns[1], ns[2], ns[3], ns[4]))
      else None
    case _ => None
  }

  function ReadEntry(e: seq<Token>): Option<Entry> {
    if e != [] && HasPrefix(e[0].text, "$") then
      if |e| == 2 && Bare(e[0], "$ORIGIN") && !e[1].quoted then Some(Origin(e[1].text))
      else if |e| == 2 && Bare(e[0], "$TTL") then
        match ReadDecimal(e[1].text)
        case Some(n) => Some(DefaultTtl(n))
        case None => None
      else None
    else if |e| == 11 then ReadSoa(e)
    else if |e| == 5 then ReadResource(e)
    else None
  }

  function ReadEntries(es: seq<seq<Token>>): Option<seq<Entry>> {
    if es == [] then Some([])
    else
      match (ReadEntries(es[..|es| - 1]), ReadEntry(es[|es| - 1]))
      case (Some(rs), Some(r)) => Some(rs + [r])
      case _ => None
  }

  function Read(text: string): Option<seq<Entry>> {
    var st := Run(START, text);
    if st.mode == Gap && st.fields == [] && st.depth == 0 then ReadEntries(st.entries) else None
  }

  // ---------------------------------------------------------------- what can be printed

  /** The records a master file can carry as printed: plain non-empty owner names other than "@" and a
      directive, plain non-empty addresses and hosts, and texts without quote, backslash or line break. */
  predicate Printable(r: Record) {
    && PlainWord(r.name) && r.name != "@" && r.name[0] != '$'
    && 0 < r.ttl
    && (r.rtype == TYPE_A || r.rtype == TYPE_TXT || r.rtype == TYPE_NS)
    && (r.rtype == TYPE_TXT ==> forall c :: c in r.value ==> Quotable(c))
    && (r.rtype != TYPE_TXT ==> PlainWord(r.value))
  }

  ghost predicate PrintableZone(m: Records) {
    Keyed(m) && forall k :: k in m ==> Printable(m[k])
  }

  // ---------------------------------------------------------------- scanning lemmas

  lemma {:induction false} RunConcat(st: Scan, a: string, b: string)
    ensures Run(st, a + b) == Run(Run(st, a), b)
    decreases |a|
  {
    if a == [] {
      assert a + b == b;
    } else {
      assert (a + b)[1..] == a[1..] + b;
      RunConcat(Step(st, a[0]), a[1..], b);
    }
  }

  lemma {:induction false} RunWordFrom(st: Scan, acc: string, w: string)
    requires st.mode == Word(acc) && forall c :: c in w ==> Plain(c)
    ensures Run(st, w) == st.(mode := Word(acc + w))
    decreases |w|
  {
    if w == [] {
      assert acc + w == acc;
    } else {
      assert w[0] in w;
      RunWordFrom(Step(st, w[0]), acc + [w[0]], w[1..]);
      assert acc + [w[0]] + w[1..] == acc + w;
    }
  }

  /** A plain word followed by a character that ends it. */
  lemma RunWord(st: Scan, w: string, c: char)
    requires st.mode == Gap && PlainWord(w) && !Plain(c)
    ensures Run(st, w + [c]) == InGap(st.(fields := st.fields + [Token(w, false)]), c)
  {
    RunConcat(st, w, [c]);
    var s1 := Step(st, w[0]);
    assert w[0] in w;
    assert s1 == st.(mode := Word([w[0]]));
    RunWordFrom(s1, [w[0]], w[1..]);
    assert [w[0]] + w[1..] == w;
    var s2 := Run(st, w);
    assert s2 == st.(mode := Word(w));
    assert Run(s2, [c]) == Step(s2, c);
  }

  function Fields(ws: seq<string>): seq<Token> {
    seq(|ws|, i requires 0 <= i < |ws| => Token(ws[i], false))
  }

  ghost predicate PlainWords(ws: seq<string>) {
    ws != [] && forall i :: 0 <= i < |ws| ==> PlainWord(ws[i])
  }

  lemma {:induction false} RunWords(st: Scan, ws: seq<string>, c: char)
    requires st.mode == Gap && PlainWords(ws) && !Plain(c)
    ensures Run(st, Words(ws) + [c]) == InGap(st.(fields := st.fields + Fields(ws)), c)
    decreases |ws|
  {
    if |ws| == 1 {
      RunWord(st, ws[0], c);
      assert Fields(ws) == [Token(ws[0], false)];
    } else {
      var head, rest := ws[0] + " ", Words(ws[1..]) + [c];
      assert Words(ws) + [c] == head + rest;
      RunConcat(st, head, rest);
      RunWord(st, ws[0], ' ');
      var s1 := st.(fields := st.fields + [Token(ws[0], false)]);
      RunWords(s1, ws[1..], c);
      assert s1.fields + Fields(ws[1..]) == st.fields + Fields(ws);
    }
  }

  lemma RunOne(st: Scan, c: char)
    ensures Run(st, [c]) == Step(st, c)
  {
    assert [c][1..] == [];
  }

  lemma {:induction false} RunQuoteFrom(st: Scan, acc: string, v: string)
    requires st.mode == Quote(acc) && forall c :: c in v ==> Quotable(c)
    ensures Run(st, v) == st.(mode := Quote(acc + v))
    decreases |v|
  {
    if v == [] {
      assert acc + v == acc;
    } else {
      assert v[0] in v && forall c :: c in v[1..] ==> c in v;
      RunQuoteFrom(Step(st, v[0]), acc + [v[0]], v[1..]);
      assert acc + [v[0]] + v[1..] == acc + v;
    }
  }

  lemma RunQuoted(st: Scan, v: string)
    requires st.mode == Gap && forall c :: c in v ==> Quotable(c)
    ensures Run(st, Quoted(v)) == st.(fields := st.fields + [Token(v, true)])
  {
    RunConcat(st, "\"" + v, "\"");
    RunConcat(st, "\"", v);
    var q := st.(mode := Quote(""));
    RunOne(st, '"');
    RunQuoteFrom(q, "", v);
    assert "" + v == v;
    RunOne(st.(mode := Quote(v)), '"');
  }

  lemma {:induction false} RunBlanks(st: Scan, gap: string)
    requires st.mode == Gap && (st.fields != [] || st.depth > 0)
    requires forall c :: c in gap ==> c == ' '
    ensures Run(st, gap) == st
    decreases |gap|
  {
    if gap != [] {
      assert gap[0] in gap && forall c :: c in gap[1..] ==> c in gap;
      RunBlanks(st, gap[1..]);
    }
  }

  lemma {:induction false} RunComment(st: Scan, s: string)
    requires st.mode == Comment && '\n' !in s
    ensures Run(st, s) == st
    decreases |s|
  {
    if s != [] {
      RunComment(st, s[1..]);
    }
  }

  lemma DecimalIsPlain(n: nat)
    ensures PlainWord(Itoa(n))
  {
    DecimalIsDigits(n);
  }

  // ---------------------------------------------------------------- one record

  function TokensOf(r: Record): seq<Token> {
    [Token(r.name, false), Token(Itoa(r.ttl), false), Token("IN", false), Token(r.rtype, false),
     if r.rtype == TYPE_TXT then Token(r.value, true)
     else if r.rtype == TYPE_NS then Token(r.value + ".", false)
     else Token(r.value, false)]
  }

  ghost predicate Ready(st: Scan) {
    st.mode == Gap && st.fields == [] && st.depth == 0
  }

  /** A line that is one entry of plain words. */
  lemma RunEntry(st: Scan, ws: seq<string>)
    requires Ready(st) && PlainWords(ws)
    ensures Run(st, Words(ws) + "\n") == st.(entries := st.entries + [Fields(ws)])
  {
    RunWords(st, ws, '\n');
    assert st.fields + Fields(ws) == Fields(ws);
  }

  lemma RunLine(st: Scan, r: Record)
    requires Ready(st) && Printable(r)
    ensures Run(st, Line(r)) == st.(entries := st.entries + [TokensOf(r)])
  {
    DecimalIsPlain(r.ttl);
    if r.rtype == TYPE_TXT {
      RunTextLine(st, r);
    } else {
      var w := if r.rtype == TYPE_NS then r.value + "." else r.value;
      var ws := [r.name, Itoa(r.ttl), "IN", r.rtype, w];
      assert PlainWord(w) by { if r.rtype == TYPE_NS { PlainConcat(r.value, "."); } }
      assert Line(r) == Words(ws) + "\n";
      RunEntry(st, ws);
      assert Fields(ws) == TokensOf(r);
    }
  }

  lemma RunTextLine(st: Scan, r: Record)
    requires Ready(st) && Printable(r) && r.rtype == TYPE_TXT && PlainWord(Itoa(r.ttl))
    ensures Run(st, Line(r)) == st.(entries := st.entries + [TokensOf(r)])
  {
    var ws := [r.name, Itoa(r.ttl), "IN", "TXT"];
    var s4 := st.(fields := Fields(ws));
    RunWords(st, ws, ' ');
    assert st.fields + Fields(ws) == Fields(ws);
    RunConcat(st, Words(ws) + " ", Quoted(r.value));
    RunQuoted(s4, r.value);
    RunConcat(st, Words(ws) + " " + Quoted(r.value), "\n");
    var s5 := s4.(fields := s4.fields + [Token(r.value, true)]);
    RunOne(s5, '\n');
    assert s5.fields == TokensOf(r);
    assert Line(r) == Words(ws) + " " + Quoted(r.value) + "\n";
  }

  lemma ReadRecord(r: Record)
    requires Printable(r)
    ensures ReadEntry(TokensOf(r)) == Some(Resource(r))
  {
    DecimalRoundTrip(r.ttl);
    if r.rtype == TYPE_NS {
      assert (r.value + ".")[..|r.value + "."| - 1] == r.value;
    }
  }

  // ---------------------------------------------------------------- the header

  function SoaTokens(a: Apex): seq<Token> {
    Fields(["@", Itoa(a.ttl), "IN", "SOA", a.ns, a.contact])
    + NumberFields([a.serial, a.refresh, a.retry, a.expire, a.ttl])
  }

  function HeaderTokens(a: Apex): seq<seq<Token>> {
    [Fields(["$ORIGIN", a.zone]), Fields(["$TTL", Itoa(a.ttl)]), SoaTokens(a),
     Fields(["@", Itoa(a.ttl), "IN", "NS", a.ns])]
  }

  function HeaderEntries(a: Apex): seq<Entry> {
    [Origin(a.zone), DefaultTtl(a.ttl),
     Soa(a.ttl, a.ns, a.contact, a.serial, a.refresh, a.retry, a.expire, a.ttl), ZoneNs(a.ttl, a.ns)]
  }

  /** Domain names printed in the header are plain, and host names are absolute. */
  ghost predicate PrintableApex(a: Apex) {
    && PlainWord(a.zone) && PlainWord(a.ns) && PlainWord(a.contact)
    && a.ns[|a.ns| - 1] == '.'
  }

  lemma PlainConcat(a: string, b: string)
    requires PlainWord(a) && PlainWord(b)
    ensures PlainWord(a + b)
  {
  }

  lemma ApexIsPrintable(serial: nat)
    ensures PrintableApex(ApexOf(serial))
  {
    assert PlainWord(ZONE) && PlainWord("ns.") && PlainWord("hostmaster.") && PlainWord(".");
    PlainConcat(ZONE, ".");
    PlainConcat("ns.", ZONE);
    PlainConcat(NAMESERVER, ".");
    PlainConcat("hostmaster.", ZONE);
    PlainConcat(SOA_CONTACT, ".");
  }

  ghost predicate PrintableItem(i: SoaItem) {
    (forall c :: c in i.gap ==> c == ' ') && '\n' !in i.remark
  }

  lemma RunSoaLine(st: Scan, i: SoaItem)
    requires st.mode == Gap && st.depth > 0 && PrintableItem(i)
    ensures Run(st, SoaLine(i)) == st.(fields := st.fields + [Token(Itoa(i.n), false)])
  {
    var pad, w := "    ", Itoa(i.n);
    RunConcat(st, pad + (w + " ") + i.gap, ";" + (" " + i.remark) + "\n");
    RunConcat(st, pad + (w + " "), i.gap);
    RunConcat(st, pad, w + " ");
    RunBlanks(st, pad);
    DecimalIsPlain(i.n);
    RunWord(st, w, ' ');
    var s1 := st.(fields := st.fields + [Token(w, false)]);
    RunBlanks(s1, i.gap);
    RunRemark(s1, " " + i.remark);
  }

  lemma RunRemark(st: Scan, s: string)
    requires st.mode == Gap && st.depth > 0 && '\n' !in s
    ensures Run(st, ";" + s + "\n") == st
  {
    var c := st.(mode := Comment);
    RunConcat(st, ";" + s, "\n");
    RunConcat(st, ";", s);
    RunOne(st, ';');
    RunComment(c, s);
    RunOne(c, '\n');
  }

  function ItemFields(items: seq<SoaItem>): seq<Token> {
    seq(|items|, i requires 0 <= i < |items| => Token(Itoa(items[i].n), false))
  }

  /** The numbers of the SOA entry, spread over commented lines inside the parentheses. */
  lemma {:induction false} RunSoaLines(st: Scan, items: seq<SoaItem>)
    requires st.mode == Gap && st.depth > 0 && forall i :: 0 <= i < |items| ==> PrintableItem(items[i])
    ensures Run(st, SoaLines(items)) == st.(fields := st.fields + ItemFields(items))
    decreases |items|
  {
    if items == [] {
      assert st.fields + ItemFields(items) == st.fields;
    } else {
      RunConcat(st, SoaLine(items[0]), SoaLines(items[1..]));
      RunSoaLine(st, items[0]);
      var s1 := st.(fields := st.fields + [Token(Itoa(items[0].n), false)]);
      RunSoaLines(s1, items[1..]);
      assert s1.fields + ItemFields(items[1..]) == st.fields + ItemFields(items);
    }
  }

  lemma RunDirectives(st: Scan, zone: string, ttl: nat)
    requires Ready(st) && PlainWord(zone)
    ensures Run(st, Directives(zone, ttl))
         == st.(entries := st.entries + [Fields(["$ORIGIN", zone]), Fields(["$TTL", Itoa(ttl)])])
  {
    DecimalIsPlain(ttl);
    var a, b := ["$ORIGIN", zone], ["$TTL", Itoa(ttl)];
    var l1, l2 := Words(a) + "\n", Words(b) + "\n";
    RunEntry(st, a);
    var s1 := st.(entries := st.entries + [Fields(a)]);
    RunEntry(s1, b);
    RunConcat(st, l1, l2);
    RunConcat(st, l1 + l2, "\n");
    assert l1 + Words(b) + "\n" == l1 + l2;
    var s2 := s1.(entries := s1.entries + [Fields(b)]);
    RunOne(s2, '\n');
    assert st.entries + [Fields(a)] + [Fields(b)] == st.entries + [Fields(a), Fields(b)];
  }

  lemma RunSoaHead(st: Scan, ttl: nat, ns: string, contact: string)
    requires Ready(st) && PlainWord(ns) && PlainWord(contact)
    ensures Run(st, SoaHead(ttl, ns, contact))
         == st.(fields := Fields(["@", Itoa(ttl), "IN", "SOA", ns, contact]), depth := 1)
  {
    DecimalIsPlain(ttl);
    var ws := ["@", Itoa(ttl), "IN", "SOA", ns, contact];
    RunWords(st, ws, ' ');
    assert st.fields + Fields(ws) == Fields(ws);
    var s6 := st.(fields := Fields(ws));
    RunConcat(st, Words(ws) + " ", "(");
    RunOne(s6, '(');
    RunConcat(st, Words(ws) + " " + "(", "\n");
    RunOne(s6.(depth := 1), '\n');
  }

  lemma RunApexNs(st: Scan, ttl: nat, ns: string)
    requires Ready(st) && PlainWord(ns)
    ensures Run(st, ApexNs(ttl, ns)) == st.(entries := st.entries + [Fields(["@", Itoa(ttl), "IN", "NS", ns])])
  {
    DecimalIsPlain(ttl);
    var ws := ["@", Itoa(ttl), "IN", "NS", ns];
    RunEntry(st, ws);
    RunConcat(st, Words(ws) + "\n", "\n");
    RunOne(st.(entries := st.entries + [Fields(ws)]), '\n');
  }

  /** From inside the parentheses of the SOA entry to the start of the zone-level NS entry. */
  lemma RunClose(st: Scan, text: string)
    requires Run(START, text) == st && st.mode == Gap && st.fields != [] && st.depth == 1
    ensures Run(START, text + ")" + "\n" + "\n") == Scan(st.entries + [st.fields], [], Gap, 0)
  {
    RunConcat(START, text + ")" + "\n", "\n");
    RunConcat(START, text + ")", "\n");
    RunConcat(START, text, ")");
    RunOne(st, ')');
    RunOne(st.(depth := 0), '\n');
    RunOne(Scan(st.entries + [st.fields], [], Gap, 0), '\n');
  }

  lemma ItemsArePrintable(a: Apex)
    ensures var items := SoaItems(a.serial, a.refresh, a.retry, a.expire, a.ttl);
            && (forall i :: 0 <= i < |items| ==> PrintableItem(items[i]))
            && ItemFields(items) == NumberFields([a.serial, a.refresh, a.retry, a.expire, a.ttl])
  {
  }

  lemma RunHeader(a: Apex)
    requires PrintableApex(a)
    ensures Run(START, HeaderOf(a)) == START.(entries := HeaderTokens(a))
  {
    var d, h := Directives(a.zone, a.ttl), SoaHead(a.ttl, a.ns, a.contact);
    var items := SoaItems(a.serial, a.refresh, a.retry, a.expire, a.ttl);
    var n, z := SoaLines(items), ApexNs(a.ttl, a.ns);
    var e := HeaderTokens(a);
    RunDirectives(START, a.zone, a.ttl);
    RunConcat(START, d, h);
    var s1 := START.(entries := [e[0], e[1]]);
    assert START.entries + [e[0], e[1]] == [e[0], e[1]];
    RunSoaHead(s1, a.ttl, a.ns, a.contact);
    RunConcat(START, d + h, n);
    var s2 := s1.(fields := Fields(["@", Itoa(a.ttl), "IN", "SOA", a.ns, a.contact]), depth := 1);
    ItemsArePrintable(a);
    RunSoaLines(s2, items);
    var s3 := s2.(fields := SoaTokens(a));
    assert s2.fields + ItemFields(items) == SoaTokens(a);
    assert |SoaTokens(a)| == 11;
    assert Run(START, d + h) == s2;
    assert Run(START, d + h + n) == s3;
    RunClose(s3, d + h + n);
    RunConcat(START, d + h + n + ")" + "\n" + "\n", z);
    var s4 := START.(entries := [e[0], e[1]] + [e[2]]);
    RunApexNs(s4, a.ttl, a.ns);
    assert [e[0], e[1]] + [e[2]] + [e[3]] == e;
  }

  lemma ReadSoaEntry(a: Apex)
    ensures ReadEntry(SoaTokens(a)) == Some(HeaderEntries(a)[2])
  {
    DecimalRoundTrip(a.ttl);
    var ns := [a.serial, a.refresh, a.retry, a.expire, a.ttl];
    NumbersRoundTrip(ns);
    var e := SoaTokens(a);
    assert |e| == 11 && e[6..] == NumberFields(ns);
    assert e[0] == Token("@", false) && e[1] == Token(Itoa(a.ttl), false);
    assert e[2] == Token("IN", false) && e[3] == Token("SOA", false);
    assert e[4] == Token(a.ns, false) && e[5] == Token(a.contact, false);
    assert !HasPrefix(e[0].text, "$") by { assert "@"[0] != "$"[0]; }
    assert ReadSoa(e).Some?;
  }

  function NumberFields(ns: seq<nat>): seq<Token> {
    seq(|ns|, i requires 0 <= i < |ns| => Token(Itoa(ns[i]), false))
  }

  lemma {:induction false} NumbersRoundTrip(ns: seq<nat>)
    ensures Numbers(NumberFields(ns)) == Some(ns)
  {
    if ns != [] {
      DecimalRoundTrip(ns[0]);
      NumbersRoundTrip(ns[1..]);
      assert NumberFields(ns)[1..] == NumberFields(ns[1..]);
      assert [ns[0]] + ns[1..] == ns;
    }
  }

  lemma {:induction false} ReadEach(h: seq<seq<Token>>, e: seq<Entry>)
    requires |h| == |e| && forall i :: 0 <= i < |h| ==> ReadEntry(h[i]) == Some(e[i])
    ensures ReadEntries(h) == Some(e)
  {
    if h != [] {
      var n := |h| - 1;
      ReadEach(h[..n], e[..n]);
      ReadSnoc(h[..n], h[n]);
      assert h[..n] + [h[n]] == h && e[..n] + [e[n]] == e;
    }
  }

  lemma ReadHeader(a: Apex)
    requires PrintableApex(a)
    ensures ReadEntries(HeaderTokens(a)) == Some(HeaderEntries(a))
  {
    var h, e := HeaderTokens(a), HeaderEntries(a);
    DecimalRoundTrip(a.ttl);
    ReadSoaEntry(a);
    assert ReadEntry(h[0]) == Some(e[0]) && ReadEntry(h[1]) == Some(e[1]) && ReadEntry(h[3]) == Some(e[3]);
    ReadEach(h, e);
  }

  lemma ReadSnoc(es: seq<seq<Token>>, e: seq<Token>)
    requires ReadEntries(es).Some? && ReadEntry(e).Some?
    ensures ReadEntries(es + [e]) == Some(ReadEntries(es).value + [ReadEntry(e).value])
  {
    assert (es + [e])[..|es + [e]| - 1] == es;
  }

  // ---------------------------------------------------------------- the whole file

  function Resources(rs: seq<Record>): seq<Entry> {
    seq(|rs|, i requires 0 <= i < |rs| => Resource(rs[i]))
  }

  lemma ReadLine(st: Scan, es: seq<Entry>, r: Record)
    requires Ready(st) && ReadEntries(st.entries) == Some(es) && Printable(r)
    ensures Ready(Run(st, Line(r))) && ReadEntries(Run(st, Line(r)).entries) == Some(es + [Resource(r)])
  {
    RunLine(st, r);
    ReadRecord(r);
    ReadSnoc(st.entries, TokensOf(r));
  }

  lemma ReadMore(st: Scan, text: string, es: seq<Entry>, r: Record)
    requires Ready(Run(st, text)) && ReadEntries(Run(st, text).entries) == Some(es) && Printable(r)
    ensures Ready(Run(st, text + Line(r)))
    ensures ReadEntries(Run(st, text + Line(r)).entries) == Some(es + [Resource(r)])
  {
    RunConcat(st, text, Line(r));
    ReadLine(Run(st, text), es, r);
  }

  lemma ResourcesSnoc(rs: seq<Record>, r: Record)
    ensures Resources(rs + [r]) == Resources(rs) + [Resource(r)]
  {
  }

  lemma LinesSnoc(rs: seq<Record>, r: Record)
    ensures Lines(rs + [r]) == Lines(rs) + Line(r)
  {
    assert (rs + [r])[..|rs|] == rs;
  }

  /** The text has been read as es so far. */
  ghost predicate ReadAs(st: Scan, text: string, es: seq<Entry>) {
    Ready(Run(st, text)) && ReadEntries(Run(st, text).entries) == Some(es)
  }

  lemma ReadLinesStep(init: seq<Record>, r: Record, st: Scan, es: seq<Entry>)
    requires Printable(r) && ReadAs(st, Lines(init), es + Resources(init))
    ensures ReadAs(st, Lines(init + [r]), es + Resources(init + [r]))
  {
    ReadMore(st, Lines(init), es + Resources(init), r);
    LinesSnoc(init, r);
    ResourcesSnoc(init, r);
    Joined(es, Resources(init), [Resource(r)], es + Resources(init), Resources(init + [r]),
           es + Resources(init) + [Resource(r)]);
  }

  lemma {:induction false} ReadLines(rs: seq<Record>, st: Scan, es: seq<Entry>)
    requires forall i :: 0 <= i < |rs| ==> Printable(rs[i])
    requires Ready(st) && ReadEntries(st.entries) == Some(es)
    ensures ReadAs(st, Lines(rs), es + Resources(rs))
    decreases |rs|
  {
    if rs == [] {
      assert es + Resources(rs) == es;
    } else {
      var init, r := rs[..|rs| - 1], rs[|rs| - 1];
      assert rs == init + [r];
      assert forall i :: 0 <= i < |init| ==> init[i] == rs[i];
      ReadLines(init, st, es);
      ReadLinesStep(init, r, st, es);
    }
  }

  /** A rendered zone reads back as its header followed by every record of the map exactly once, in
      strictly ascending key order. */
  lemma RenderedReadsBack(m: Records, serial: nat)
    requires PrintableZone(m)
    ensures Read(Rendered(m, serial))
         == Some(HeaderEntries(ApexOf(serial)) + Resources(Select(m, Sorted(m.Keys))))
    ensures Enumerates(Sorted(m.Keys), m.Keys)
  {
    SortedEnumerates(m.Keys);
    var a, rs := ApexOf(serial), Select(m, Sorted(m.Keys));
    ApexIsPrintable(serial);
    RunHeader(a);
    ReadHeader(a);
    forall i | 0 <= i < |rs| ensures Printable(rs[i]) {
      assert Sorted(m.Keys)[i] in m.Keys;
    }
    ReadAll(a, rs);
  }

  lemma ReadAll(a: Apex, rs: seq<Record>)
    requires Run(START, HeaderOf(a)) == START.(entries := HeaderTokens(a))
    requires ReadEntries(HeaderTokens(a)) == Some(HeaderEntries(a))
    requires forall i :: 0 <= i < |rs| ==> Printable(rs[i])
    ensures Read(HeaderOf(a) + Lines(rs)) == Some(HeaderEntries(a) + Resources(rs))
  {
    RunConcat(START, HeaderOf(a), Lines(rs));
    ReadLines(rs, START.(entries := HeaderTokens(a)), HeaderEntries(a));
  }

  /** The record map an entry list describes; a later entry for a slot replaces an earlier one. */
  function Recovered(es: seq<Entry>): Records {
    if es == [] then map[]
    else
      var m := Recovered(es[..|es| - 1]);
      var e := es[|es| - 1];
      if e.Resource? then m[KeyOf(e.record) := e.record] else m
  }

  lemma NothingRecovered(es: seq<Entry>)
    requires forall i :: 0 <= i < |es| ==> !es[i].Resource?
    ensures Recovered(es) == map[]
  {
  }

  lemma RecoveredSnoc(es: seq<Entry>, r: Record)
    ensures Recovered(es + [Resource(r)]) == Recovered(es)[KeyOf(r) := r]
  {
    assert (es + [Resource(r)])[..|es|] == es;
  }

  lemma RecoveredStep(m: Records, init: seq<string>, k: string, pre: seq<Entry>)
    requires (forall x :: x in init + [k] ==> x in m) && KeyOf(m[k]) == k
    ensures Recovered(pre + Resources(Select(m, init + [k]))) == Recovered(pre + Resources(Select(m, init)))[k := m[k]]
  {
    var rs := Select(m, init);
    assert Select(m, init + [k]) == rs + [m[k]];
    ResourcesSnoc(rs, m[k]);
    Joined(pre, Resources(rs), [Resource(m[k])], pre + Resources(rs), Resources(rs + [m[k]]),
           pre + Resources(rs) + [Resource(m[k])]);
    RecoveredSnoc(pre + Resources(rs), m[k]);
  }

  lemma {:induction false} RecoveredResources(m: Records, ks: seq<string>, pre: seq<Entry>)
    requires Keyed(m) && Recovered(pre) == map[]
    requires forall k :: k in ks ==> k in m
    ensures Recovered(pre + Resources(Select(m, ks))) == map k | k in m && k in ks :: m[k]
    decreases |ks|
  {
    if ks == [] {
      assert pre + Resources(Select(m, ks)) == pre;
    } else {
      var init, k := ks[..|ks| - 1], ks[|ks| - 1];
      assert ks == init + [k];
      RecoveredResources(m, init, pre);
      RecoveredStep(m, init, k, pre);
    }
  }

  /** Printing loses nothing: the map comes back from the text. */
  lemma RenderedIsLossless(m: Records, serial: nat)
    requires PrintableZone(m)
    ensures Read(Rendered(m, serial)).Some?
    ensures Recovered(Read(Rendered(m, serial)).value) == m
  {
    RenderedReadsBack(m, serial);
    NothingRecovered(HeaderEntries(ApexOf(serial)));
    AllRecovered(m, HeaderEntries(ApexOf(serial)));
  }

  lemma AllRecovered(m: Records, pre: seq<Entry>)
    requires PrintableZone(m) && Recovered(pre) == map[]
    ensures Recovered(pre + Resources(Select(m, Sorted(m.Keys)))) == m
  {
    SortedEnumerates(m.Keys);
    RecoveredResources(m, Sorted(m.Keys), pre);
  }

  /** Hence two zones with one text are the same zone, published under the same serial. */
  lemma RenderedInjective(m: Records, n: Records, s: nat, t: nat)
    requires PrintableZone(m) && PrintableZone(n) && Rendered(m, s) == Rendered(n, t)
    ensures m == n && s == t
  {
    RenderedIsLossless(m, s);
    RenderedIsLossless(n, t);
    RenderedReadsBack(m, s);
    RenderedReadsBack(n, t);
    assert (HeaderEntries(ApexOf(s)) + Resources(Select(m, Sorted(m.Keys))))[2] == HeaderEntries(ApexOf(s))[2];
    assert (HeaderEntries(ApexOf(t)) + Resources(Select(n, Sorted(n.Keys))))[2] == HeaderEntries(ApexOf(t))[2];
  }

  /** Outside the three declared types the text no longer tells zones apart: every other type prints as A. */
  lemma OtherTypesPrintAsA(name: string, rtype: string, ttl: int, value: string, serial: nat)
    requires rtype !in {TYPE_A, TYPE_TXT, TYPE_NS}
    ensures var other, a := Record(name, rtype, ttl, value), Record(name, TYPE_A, ttl, value);
            var m, n := map[KeyOf(other) := other], map[KeyOf(a) := a];
            m != n && Rendered(m, serial) == Rendered(n, serial)
  {
    var other, a := Record(name, rtype, ttl, value), Record(name, TYPE_A, ttl, value);
    var m, n := map[KeyOf(other) := other], map[KeyOf(a) := a];
    assert KeyOf(a) in n && n[KeyOf(a)] == a && (KeyOf(a) in m ==> m[KeyOf(a)] == other);
    SortedEnumerates(m.Keys);
    SortedEnumerates(n.Keys);
    EnumerationUnique(Sorted(m.Keys), [KeyOf(other)], m.Keys);
    EnumerationUnique(Sorted(n.Keys), [KeyOf(a)], n.Keys);
    assert Select(m, [KeyOf(other)]) == [other] && Select(n, [KeyOf(a)]) == [a];
    LinesSnoc([], other);
    LinesSnoc([], a);
    assert [] + [other] == [other] && [] + [a] == [a];
  }

  // ---------------------------------------------------------------- the header

  lemma HeaderIs(serial: nat)
    ensures HeaderEntries(ApexOf(serial)) == [
      Origin("seam.ontave.dev."),
      DefaultTtl(300),
      Soa(300, "ns.seam.ontave.dev.", "hostmaster.seam.ontave.dev.", serial, 3600, 900, 604800, 300),
      ZoneNs(300, "ns.seam.ontave.dev.")]
  {
    var a := ApexOf(serial);
    assert a.zone == "seam.ontave.dev.";
    assert a.ns == "ns.seam.ontave.dev.";
    assert a.contact == "hostmaster.seam.ontave.dev.";
  }

  /** What a reader finds above the records of every printable zone: the origin, the lifetime, the start of authority
      with its five numbers in order, and the zone's own name server. */
  lemma HeaderSays(m: Records, serial: nat)
    requires PrintableZone(m)
    ensures var es := Read(Rendered(m, serial));
            && es.Some? && |es.value| == 4 + |m|
            && es.value[..4] == [
                 Origin("seam.ontave.dev."),
                 DefaultTtl(300),
                 Soa(300, "ns.seam.ontave.dev.", "hostmaster.seam.ontave.dev.", serial, 3600, 900, 604800, 300),
                 ZoneNs(300, "ns.seam.ontave.dev.")]
  {
    RenderedReadsBack(m, serial);
    HeaderIs(serial);
    EnumerationSize(Sorted(m.Keys), m.Keys);
    FrontOf(HeaderEntries(ApexOf(serial)), Resources(Select(m, Sorted(m.Keys))));
  }

  lemma FrontOf<T>(a: seq<T>, b: seq<T>)
    ensures (a + b)[..|a|] == a
  {
  }

  lemma {:induction false} EnumerationSize(ks: seq<string>, s: set<string>)
    requires Enumerates(ks, s)
    ensures |ks| == |s|
    decreases |ks|
  {
    if ks == [] {
      assert s == {};
    } else {
      assert ks[0] in s;
      EnumeratesTail(ks, s);
      EnumerationSize(ks[1..], s - {ks[0]});
    }
  }
}
