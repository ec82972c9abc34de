/** What the kubeconfig says: the four values can be read back out of the filled template. */
module Kubeconfig {
  import opened Types
  import opened Base64
  import opened Template

  // ---- the kubeconfig template -------------------------------------------------------------

  const HEAD := "\napiVersion: v1" + "\nclusters:" + "\n- cluster:" + "\n    certificate-authority-data: "
  const SERVER := "\n    server: https://"
  const PORT := ":6443"
  const CONTEXT := "\n  name: microk8s-cluster" + "\ncontexts:" + "\n- context:" + "\n    cluster: microk8s-cluster"
  const CURRENT := "\n    user: admin" + "\n  name: microk8s" + "\ncurrent-context: microk8s" + "\nkind: Config"
  const USERS := "\npreferences: {}" + "\nusers:" + "\n- name: admin" + "\n  user:" + "\n    client-certificate-data: "
  const USER := CONTEXT + CURRENT + USERS
  const CLIENT_KEY := "\n    client-key-data: "
  const TAIL := "\n"

  const TEMPLATE := Layout(HEAD, SERVER, PORT, USER, CLIENT_KEY, TAIL)

  lemma HeadHasNoBracket()
    ensures '<' !in HEAD
  {
  }

  lemma ContextHasNoBracket()
    ensures '<' !in CONTEXT
  {
  }

  lemma CurrentHasNoBracket()
    ensures '<' !in CURRENT
  {
  }

  lemma UsersHaveNoBracket()
    ensures '<' !in USERS
  {
  }

  lemma LiteralsHaveNoBracket()
    ensures '<' !in HEAD && '<' !in SERVER && '<' !in PORT && '<' !in USER && '<' !in CLIENT_KEY && '<' !in TAIL
  {
    HeadHasNoBracket();
    ContextHasNoBracket();
    CurrentHasNoBracket();
    UsersHaveNoBracket();
  }

  lemma TemplateIsValid()
    ensures TEMPLATE.Valid()
  {
    LiteralsHaveNoBracket();
  }

  /** The text of the kubeconfig around its four values. */
  lemma TemplateText(value: Blank -> string)
    ensures Fill(TEMPLATE, value)
         == ("\napiVersion: v1" + "\nclusters:" + "\n- cluster:" + "\n    certificate-authority-data: ")
            + (value(CaCert) + ("\n    server: https://" + (value(Host) + (":6443"
            + ((("\n  name: microk8s-cluster" + "\ncontexts:" + "\n- context:" + "\n    cluster: microk8s-cluster")
                + ("\n    user: admin" + "\n  name: microk8s" + "\ncurrent-context: microk8s" + "\nkind: Config")
                + ("\npreferences: {}" + "\nusers:" + "\n- name: admin" + "\n  user:"
                   + "\n    client-certificate-data: "))
               + (value(Cert) + ("\n    client-key-data: " + (value(Key) + "\n"))))))))
  {
  }

  // ---- four replacements against one substitution ------------------------------------------

  lemma Cancel(before: string, x: string, y: string, after: string)
    requires before + (x + after) == before + (y + after)
    ensures x == y
  {
    var s, t := before + (x + after), before + (y + after);
    assert |s| == |before| + |x| + |after| && |t| == |before| + |y| + |after|;
    forall i | 0 <= i < |x|
      ensures x[i] == y[i]
    {
      assert s[|before| + i] == x[i] && t[|before| + i] == y[i];
    }
  }

  function BeforeHost(t: Layout, value: Blank -> string): string {
    t.head + value(CaCert) + t.server
  }

  function AfterHost(t: Layout, value: Blank -> string): string {
    t.port + (t.user + (value(Cert) + (t.clientKey + (value(Key) + t.tail))))
  }

  lemma FillAroundHost(t: Layout, value: Blank -> string)
    ensures Fill(t, value) == BeforeHost(t, value) + (value(Host) + AfterHost(t, value))
  {
  }

  /** The four replacements in a row are one simultaneous substitution exactly when the host holds none of the
      three placeholders replaced after it. */
  lemma SequentialIsSimultaneousIff(t: Layout, value: Blank -> string)
    requires t.Valid()
    requires EncodedValues(value)
    ensures Sequential(t, value) == Fill(t, value) <==> !HoldsPlaceholder(value(Host))
  {
    var hosted := WithHost(value, HostAfter(value));
    SequentialFills(t, value);
    HostUnchangedIff(value);
    if HostAfter(value) == value(Host) {
      FillCongruence(t, hosted, value);
    } else if Fill(t, hosted) == Fill(t, value) {
      FillAroundHost(t, hosted);
      FillAroundHost(t, value);
      Cancel(BeforeHost(t, value), hosted(Host), value(Host), AfterHost(t, value));
    }
  }

  // ---- reading it back ---------------------------------------------------------------------

  function Line(s: string): string {
    if |s| == 0 || s[0] == '\n' then "" else [s[0]] + Line(s[1..])
  }

  function Strip(s: string, literal: string): Option<string> {
    if literal <= s then Some(s[|literal|..]) else None
  }

  /** The line that follows `literal`, and the text from its end on. */
  function Field(s: string, literal: string): Option<(string, string)> {
    match Strip(s, literal)
    case None => None
    case Some(rest) => if |Line(rest)| <= |rest| then Some((Line(rest), rest[|Line(rest)|..])) else None
  }

  datatype Parsed = Parsed(host: string, ca: seq<Byte>, cert: seq<Byte>, key: seq<Byte>)

  function WithoutPort(t: Layout, line: string): Option<string> {
    if |line| >= |t.port| && line[|line| - |t.port|..] == t.port then Some(line[..|line| - |t.port|]) else None
  }

  /** The fields behind four literals. */
  function FieldsOf(s: string, l0: string, l1: string, l2: string, l3: string)
    : Option<(string, string, string, string)>
  {
    match Field(s, l0)
    case None => None
    case Some((x0, s1)) => match Field(s1, l1)
      case None => None
      case Some((x1, s2)) => match Field(s2, l2)
        case None => None
        case Some((x2, s3)) => match Field(s3, l3)
          case None => None
          case Some((x3, _)) => Some((x0, x1, x2, x3))
  }

  function Parse(t: Layout, s: string): Option<Parsed> {
    match FieldsOf(s, t.head, t.server, t.user, t.clientKey)
    case None => None
    case Some((ca, server, cert, key)) =>
      match (Decode(ca), WithoutPort(t, server), Decode(cert), Decode(key))
      case (Some(a), Some(host), Some(c), Some(k)) => Some(Parsed(host, a, c, k))
      case _ => None
  }

  lemma {:induction false} LineEnds(x: string, rest: string)
    requires '\n' !in x && |rest| > 0 && rest[0] == '\n'
    ensures Line(x + rest) == x
    decreases |x|
  {
    if |x| == 0 {
      assert x + rest == rest;
    } else {
      assert (x + rest)[0] == x[0] && x[0] in x;
      assert (x + rest)[1..] == x[1..] + rest;
      LineEnds(x[1..], rest);
    }
  }

  lemma FieldReads(literal: string, x: string, rest: string)
    requires '\n' !in x && |rest| > 0 && rest[0] == '\n'
    ensures Field(literal + (x + rest), literal) == Some((x, rest))
  {
    var s := literal + (x + rest);
    assert s[|literal|..] == x + rest;
    LineEnds(x, rest);
    assert (x + rest)[|x|..] == rest;
  }

  predicate StartsLine(s: string) {
    |s| > 0 && s[0] == '\n'
  }

  function Lines(
    head: string, ca: string, server: string, host: string, user: string, cert: string, k: string, key: string,
    end: string): string
  {
    head + (ca + (server + (host + (user + (cert + (k + (key + end)))))))
  }

  lemma FieldsRead(
    l0: string, x0: string, l1: string, x1: string, l2: string, x2: string, l3: string, x3: string, end: string)
    requires '\n' !in x0 && '\n' !in x1 && '\n' !in x2 && '\n' !in x3
    requires StartsLine(l1) && StartsLine(l2) && StartsLine(l3) && StartsLine(end)
    ensures FieldsOf(Lines(l0, x0, l1, x1, l2, x2, l3, x3, end), l0, l1, l2, l3) == Some((x0, x1, x2, x3))
  {
    var s3 := l3 + (x3 + end);
    var s2 := l2 + (x2 + s3);
    var s1 := l1 + (x1 + s2);
    FieldReads(l0, x0, s1);
    FieldReads(l1, x1, s2);
    FieldReads(l2, x2, s3);
    FieldReads(l3, x3, end);
  }

  function Values(p: Parsed): Blank -> string {
    (b: Blank) => match b
      case Host => p.host
      case CaCert => Encode(p.ca)
      case Cert => Encode(p.cert)
      case Key => Encode(p.key)
  }

  /** genarateKubeconfig from the certificate on: encode the three byte sequences and fill the template. */
  function Generate(t: Layout, p: Parsed): string {
    Sequential(t, Values(p))
  }

  lemma FillIsLines(t: Layout, value: Blank -> string)
    ensures Fill(t, value)
         == Lines(t.head, value(CaCert), t.server, value(Host) + t.port, t.user, value(Cert), t.clientKey, value(Key),
                  t.tail)
  {
  }

  /** Every value ends at the end of its line, the host with the port behind it. */
  predicate Lined(t: Layout) {
    StartsLine(t.server) && StartsLine(t.user) && StartsLine(t.clientKey) && StartsLine(t.tail) && '\n' !in t.port
  }

  lemma TemplateIsLined()
    ensures Lined(TEMPLATE)
  {
  }

  lemma FilledFields(t: Layout, value: Blank -> string)
    requires Lined(t)
    requires forall b: Blank :: '\n' !in value(b)
    ensures FieldsOf(Fill(t, value), t.head, t.server, t.user, t.clientKey)
         == Some((value(CaCert), value(Host) + t.port, value(Cert), value(Key)))
  {
    FillIsLines(t, value);
    FieldsRead(t.head, value(CaCert), t.server, value(Host) + t.port, t.user, value(Cert), t.clientKey, value(Key),
               t.tail);
  }

  lemma PortComesOff(t: Layout, host: string)
    ensures WithoutPort(t, host + t.port) == Some(host)
  {
  }

  lemma {:induction false} ReplaceKeepsOneLine(s: string, p: string, v: string)
    requires |p| > 0 && '\n' !in s && '\n' !in v
    ensures '\n' !in ReplaceAll(s, p, v)
    decreases |s|
  {
    if |s| == 0 {
    } else {
      if p <= s {
        ReplaceKeepsOneLine(s[|p|..], p, v);
      } else {
        assert s[0] in s;
        ReplaceKeepsOneLine(s[1..], p, v);
      }
    }
  }

  lemma HostStaysOneLine(value: Blank -> string)
    requires forall b: Blank :: '\n' !in value(b)
    ensures '\n' !in HostAfter(value)
  {
    var a := Step(value(Host), CaCert, value);
    ReplaceKeepsOneLine(value(Host), Placeholder(CaCert), value(CaCert));
    ReplaceKeepsOneLine(a, Placeholder(Cert), value(Cert));
    ReplaceKeepsOneLine(Step(a, Cert, value), Placeholder(Key), value(Key));
  }

  /** What is read back: everything as it went in, but the host as the last three replacements left it. */
  lemma GeneratedParses(t: Layout, p: Parsed)
    requires t.Valid() && Lined(t)
    requires '\n' !in p.host
    ensures Parse(t, Generate(t, p)) == Some(p.(host := HostAfter(Values(p))))
  {
    var value := Values(p);
    var hosted := WithHost(value, HostAfter(value));
    SequentialFills(t, value);
    HostStaysOneLine(value);
    FilledFields(t, hosted);
    PortComesOff(t, hosted(Host));
    RoundTrip(p.ca);
    RoundTrip(p.cert);
    RoundTrip(p.key);
  }

  lemma RoundTripIff(t: Layout, p: Parsed)
    requires t.Valid() && Lined(t)
    requires '\n' !in p.host
    ensures Parse(t, Generate(t, p)) == Some(p) <==> !HoldsPlaceholder(p.host)
  {
    GeneratedParses(t, p);
    HostUnchangedIff(Values(p));
  }

  lemma HostWithoutBracket(host: string)
    requires '<' !in host
    ensures !HoldsPlaceholder(host)
  {
  }

  lemma BracketsComeFromHost(p: Parsed, b: Blank)
    ensures '<' in Values(p)(b) ==> b == Host && '<' in p.host
  {
  }

  lemma SourceOrderIff(t: Layout, p: Parsed)
    requires t.Valid()
    ensures Generate(t, p) == Fill(t, Values(p)) <==> !HoldsPlaceholder(p.host)
  {
    BracketsComeFromHost(p, CaCert);
    BracketsComeFromHost(p, Cert);
    BracketsComeFromHost(p, Key);
    SequentialIsSimultaneousIff(t, Values(p));
  }

  lemma OtherOrders(t: Layout, p: Parsed, order: seq<Blank>)
    requires t.Valid() && '<' !in p.host
    requires forall i, j :: 0 <= i < j < |order| ==> order[i] != order[j]
    requires forall b: Blank :: b in order
    ensures InOrder(Fill(t, Placeholder), order, Values(p)) == Generate(t, p)
  {
    forall b: Blank
      ensures '<' !in Values(p)(b)
    {
      BracketsComeFromHost(p, b);
    }
    AnyOrderFills(t, order, Values(p));
    HostWithoutBracket(p.host);
    SourceOrderIff(t, p);
  }

  // ---- the controller's own template -------------------------------------------------------

  /** For all certificate and key bytes, the four replacements in a row fill the controller's template as one
      simultaneous substitution would, exactly when the host holds none of the three placeholders replaced after
      it. */
  lemma TemplateIsFilledAtOnceIff(p: Parsed)
    ensures Generate(TEMPLATE, p) == Fill(TEMPLATE, Values(p)) <==> !HoldsPlaceholder(p.host)
  {
    TemplateIsValid();
    SourceOrderIff(TEMPLATE, p);
  }

  /** Without a bracket in the host, the order of the four replacements makes no difference. */
  lemma OrderIsFree(p: Parsed, order: seq<Blank>)
    requires '<' !in p.host
    requires forall i, j :: 0 <= i < j < |order| ==> order[i] != order[j]
    requires forall b: Blank :: b in order
    ensures InOrder(Fill(TEMPLATE, Placeholder), order, Values(p)) == Generate(TEMPLATE, p)
  {
    TemplateIsValid();
    OtherOrders(TEMPLATE, p, order);
  }

  /** For every one-line host and all certificate and key bytes, the kubeconfig reads back to exactly what it was
      made from, if and only if the host holds none of the three placeholders replaced after it. */
  lemma KubeconfigRoundTripIff(p: Parsed)
    requires '\n' !in p.host
    ensures Parse(TEMPLATE, Generate(TEMPLATE, p)) == Some(p) <==> !HoldsPlaceholder(p.host)
  {
    TemplateIsValid();
    TemplateIsLined();
    RoundTripIff(TEMPLATE, p);
  }

  /** A host that is itself one of the three placeholders is not read back. */
  lemma PlaceholderHostIsLost(host: string, ca: seq<Byte>, cert: seq<Byte>, key: seq<Byte>)
    requires host == "<CACERT>" || host == "<CERT>" || host == "<KEY>"
    ensures
      var p := Parsed(host, ca, cert, key);
      Parse(TEMPLATE, Generate(TEMPLATE, p)) != Some(p)
  {
    IsPlaceholderHost(host);
    KubeconfigRoundTripIff(Parsed(host, ca, cert, key));
  }

  lemma IsPlaceholderHost(host: string)
    requires host == "<CACERT>" || host == "<CERT>" || host == "<KEY>"
    ensures '\n' !in host && HoldsPlaceholder(host)
  {
    assert host[..|host|] == host && OccursAt(host, host, 0);
  }
}
