/** controllers/configs.go: filling the kubeconfig template by four replacements in a row. */
module Template {

  // ---- strings.Replace ---------------------------------------------------------------------

  /** Every non-overlapping occurrence of a non-empty text, from the left. */
  function ReplaceAll(s: string, p: string, v: string): string
    requires |p| > 0
    decreases |s|
  {
    if |s| == 0 then ""
    else if p <= s then v + ReplaceAll(s[|p|..], p, v)
    else [s[0]] + ReplaceAll(s[1..], p, v)
  }

  /** The parts with `sep` between them. */
  function Join(parts: seq<string>, sep: string): string
    requires |parts| > 0
  {
    if |parts| == 1 then parts[0] else parts[0] + (sep + Join(parts[1..], sep))
  }

  /** The text falls into parts at the occurrences found from the left, and the value takes the place of each. */
  lemma {:induction false} ReplaceAllMeans(s: string, p: string, v: string) returns (parts: seq<string>)
    requires |p| > 0
    ensures Parts(parts, s, p) && Join(parts, v) == ReplaceAll(s, p, v)
    decreases |s|
  {
    if |s| == 0 {
      parts := [""];
    } else if p <= s {
      var rest := ReplaceAllMeans(s[|p|..], p, v);
      parts := [""] + rest;
      PartStarts(s, p, rest);
      assert parts[1..] == rest;
    } else {
      var rest := ReplaceAllMeans(s[1..], p, v);
      parts := [[s[0]] + rest[0]] + rest[1..];
      PartGrows(s, p, rest);
      JoinGrows(s[0], rest, v);
    }
  }

  lemma PartStarts(s: string, p: string, rest: seq<string>)
    requires |p| > 0 && p <= s && Parts(rest, s[|p|..], p)
    ensures Parts([""] + rest, s, p)
  {
    var parts := [""] + rest;
    assert parts[1..] == rest;
    assert forall i :: 0 < i < |parts| ==> parts[i] == rest[i - 1];
  }

  /** Joined by p the parts make up s, each ends at the next occurrence of p, and there is none in the last. */
  ghost predicate Parts(parts: seq<string>, s: string, p: string) {
    && |parts| > 0 && Join(parts, p) == s
    && (forall i, j :: 0 <= i < |parts| - 1 && 0 <= j < |parts[i]| ==> !OccursAt(parts[i] + p, p, j))
    && !Contains(parts[|parts| - 1], p)
  }

  lemma JoinGrows(c: char, rest: seq<string>, sep: string)
    requires |rest| > 0
    ensures Join([[c] + rest[0]] + rest[1..], sep) == [c] + Join(rest, sep)
  {
    var parts := [[c] + rest[0]] + rest[1..];
    assert parts[1..] == rest[1..];
  }

  lemma PartGrows(s: string, p: string, rest: seq<string>)
    requires |p| > 0 && |s| > 0 && !(p <= s) && Parts(rest, s[1..], p)
    ensures Parts([[s[0]] + rest[0]] + rest[1..], s, p)
  {
    var first := [s[0]] + rest[0];
    JoinGrows(s[0], rest, p);
    assert s == [s[0]] + s[1..];
    if |rest| == 1 {
      assert first == s && first[1..] == rest[0];
      ContainsTail(first, p);
    } else {
      FirstPartGrows(s, p, rest[0], Join(rest[1..], p));
    }
  }

  lemma FirstPartGrows(s: string, p: string, part: string, tail: string)
    requires |p| > 0 && |s| > 0 && !(p <= s) && s[1..] == part + (p + tail)
    requires forall j :: 0 <= j < |part| ==> !OccursAt(part + p, p, j)
    ensures forall j :: 0 <= j <= |part| ==> !OccursAt([s[0]] + part + p, p, j)
  {
    var whole := [s[0]] + part + p;
    assert s == whole + tail;
    assert whole[..|p|] == s[..|p|];
    forall j | 0 <= j <= |part| && OccursAt(whole, p, j)
      ensures false
    {
      if j > 0 {
        assert whole[j..j + |p|] == (part + p)[j - 1..j - 1 + |p|];
        assert OccursAt(part + p, p, j - 1);
      }
    }
  }

  predicate OccursAt(s: string, p: string, i: int) {
    0 <= i <= |s| - |p| && s[i..i + |p|] == p
  }

  ghost predicate Contains(s: string, p: string) {
    exists i :: OccursAt(s, p, i)
  }

  lemma ContainsTail(s: string, p: string)
    requires |s| > 0
    ensures Contains(s, p) <==> p <= s || Contains(s[1..], p)
  {
    if p <= s {
      assert OccursAt(s, p, 0);
    }
    if i :| OccursAt(s[1..], p, i) {
      assert s[1..][i..i + |p|] == s[i + 1..i + 1 + |p|];
      assert OccursAt(s, p, i + 1);
    }
    if i :| OccursAt(s, p, i) && i > 0 {
      assert s[1..][i - 1..i - 1 + |p|] == s[i..i + |p|];
      assert OccursAt(s[1..], p, i - 1);
    }
  }

  lemma {:induction false} ReplaceNothing(s: string, p: string, v: string)
    requires |p| > 0 && !Contains(s, p)
    ensures ReplaceAll(s, p, v) == s
    decreases |s|
  {
    if |s| == 0 {
    } else {
      ContainsTail(s, p);
      ReplaceNothing(s[1..], p, v);
    }
  }

  /** A placeholder: `<` and then nothing that the template puts behind a blank. */
  predicate IsPlaceholder(p: string) {
    |p| > 0 && p[0] == '<' && forall i :: 1 <= i < |p| ==> p[i] != '<' && p[i] != ':' && p[i] != '\n'
  }

  predicate EndsBlank(rest: string) {
    |rest| > 0 && (rest[0] == ':' || rest[0] == '\n')
  }

  lemma NoOverrun(s: string, rest: string, p: string)
    requires IsPlaceholder(p) && EndsBlank(rest)
    ensures |s| > 0 ==> (p <= s + rest <==> p <= s)
  {
    var t := s + rest;
    assert t[|s|] == rest[0];
    if p <= s {
      assert t[..|p|] == s[..|p|];
    }
  }

  lemma ReplaceStarts(s: string, p: string, v: string, tail: string)
    requires |p| > 0 && s == p + tail
    ensures ReplaceAll(s, p, v) == v + ReplaceAll(tail, p, v)
  {
  }

  lemma Glue(a: string, b: string, c: string)
    ensures a + (b + c) == (a + b) + c
  {
  }

  lemma ReplaceHit(tail: string, rest: string, p: string, v: string)
    requires |p| > 0
    requires ReplaceAll(tail + rest, p, v) == ReplaceAll(tail, p, v) + ReplaceAll(rest, p, v)
    ensures ReplaceAll((p + tail) + rest, p, v) == ReplaceAll(p + tail, p, v) + ReplaceAll(rest, p, v)
  {
    Glue(p, tail, rest);
    ReplaceStarts((p + tail) + rest, p, v, tail + rest);
    ReplaceStarts(p + tail, p, v, tail);
    Glue(v, ReplaceAll(tail, p, v), ReplaceAll(rest, p, v));
  }

  lemma ReplaceMiss(s: string, rest: string, p: string, v: string)
    requires |p| > 0 && |s| > 0 && !(p <= s) && !(p <= s + rest)
    requires ReplaceAll(s[1..] + rest, p, v) == ReplaceAll(s[1..], p, v) + ReplaceAll(rest, p, v)
    ensures ReplaceAll(s + rest, p, v) == ReplaceAll(s, p, v) + ReplaceAll(rest, p, v)
  {
    assert (s + rest)[1..] == s[1..] + rest;
  }

  /** An occurrence does not run on into what follows a blank. */
  lemma {:induction false} ReplaceInBlank(s: string, rest: string, p: string, v: string)
    requires IsPlaceholder(p) && EndsBlank(rest)
    ensures ReplaceAll(s + rest, p, v) == ReplaceAll(s, p, v) + ReplaceAll(rest, p, v)
    decreases |s|
  {
    if |s| == 0 {
      assert s + rest == rest;
    } else {
      NoOverrun(s, rest, p);
      if p <= s {
        ReplaceInBlank(s[|p|..], rest, p, v);
        ReplaceHit(s[|p|..], rest, p, v);
        assert s == p + s[|p|..];
      } else {
        ReplaceInBlank(s[1..], rest, p, v);
        ReplaceMiss(s, rest, p, v);
      }
    }
  }

  /** Text without a bracket is passed over. */
  lemma {:induction false} ReplacePasses(s: string, rest: string, p: string, v: string)
    requires IsPlaceholder(p) && '<' !in s
    ensures ReplaceAll(s + rest, p, v) == s + ReplaceAll(rest, p, v)
    decreases |s|
  {
    if |s| == 0 {
      assert s + rest == rest;
    } else {
      assert (s + rest)[0] == s[0] && s[0] in s;
      assert (s + rest)[1..] == s[1..] + rest;
      ReplacePasses(s[1..], rest, p, v);
    }
  }

  lemma ReplaceInValue(s: string, p: string, v: string)
    requires IsPlaceholder(p) && '<' !in s
    ensures ReplaceAll(s, p, v) == s
  {
  }

  /** A placeholder is replaced by its value, and any other is passed over. */
  lemma ReplaceInPlaceholder(q: string, p: string, v: string)
    requires IsPlaceholder(p) && IsPlaceholder(q) && (p <= q ==> p == q)
    ensures ReplaceAll(q, p, v) == if p == q then v else q
  {
    if p == q {
      assert q[|p|..] == "" && ReplaceAll("", p, v) == "" && v + "" == v;
    } else {
      assert '<' !in q[1..];
      ReplaceInValue(q[1..], p, v);
      assert q == [q[0]] + q[1..];
    }
  }

  // ---- the template ------------------------------------------------------------------------

  datatype Blank = Host | CaCert | Cert | Key

  function Placeholder(b: Blank): (p: string)
    ensures IsPlaceholder(p)
  {
    match b
    case Host => "<HOST>"
    case CaCert => "<CACERT>"
    case Cert => "<CERT>"
    case Key => "<KEY>"
  }

  lemma PlaceholdersDiffer(a: Blank, b: Blank)
    ensures Placeholder(a) <= Placeholder(b) ==> a == b
  {
    assert Placeholder(Host)[1] == 'H' && Placeholder(Key)[1] == 'K';
    assert Placeholder(CaCert)[1..3] == "CA" && Placeholder(Cert)[1..3] == "CE";
    if Placeholder(a) <= Placeholder(b) {
      assert Placeholder(b)[1] == Placeholder(a)[1] && Placeholder(b)[2] == Placeholder(a)[2];
    }
  }

  /** The text around the blanks. */
  datatype Layout = Layout(head: string, server: string, port: string, user: string, clientKey: string, tail: string) {
    /** No bracket in it, and every blank is followed by a colon or the end of the line. */
    ghost predicate Valid() {
      && '<' !in head && '<' !in server && '<' !in port && '<' !in user && '<' !in clientKey && '<' !in tail
      && EndsBlank(server) && EndsBlank(port) && EndsBlank(clientKey) && EndsBlank(tail)
    }
  }

  /** The template with its four blanks filled in at once. */
  function Fill(t: Layout, value: Blank -> string): string {
    t.head + (value(CaCert) + (t.server + (value(Host) + (t.port + (t.user + (value(Cert) + (t.clientKey
    + (value(Key) + t.tail))))))))
  }

  function Replaced(value: Blank -> string, p: string, v: string): Blank -> string
    requires |p| > 0
  {
    b => ReplaceAll(value(b), p, v)
  }

  /** Replacing in a filled template is replacing in its blanks. */
  lemma ReplaceInFill(t: Layout, value: Blank -> string, p: string, v: string)
    requires t.Valid()
    requires IsPlaceholder(p)
    ensures ReplaceAll(Fill(t, value), p, v) == Fill(t, Replaced(value, p, v))
  {
    var s5 := value(Key) + t.tail;
    var s4 := value(Cert) + (t.clientKey + s5);
    var s3 := value(Host) + (t.port + (t.user + s4));
    var s2 := value(CaCert) + (t.server + s3);
    ReplaceInBlank(value(Key), t.tail, p, v);
    ReplaceInValue(t.tail, p, v);
    ReplacePasses(t.clientKey, s5, p, v);
    ReplaceInBlank(value(Cert), t.clientKey + s5, p, v);
    ReplacePasses(t.user, s4, p, v);
    ReplacePasses(t.port, t.user + s4, p, v);
    ReplaceInBlank(value(Host), t.port + (t.user + s4), p, v);
    ReplacePasses(t.server, s3, p, v);
    ReplaceInBlank(value(CaCert), t.server + s3, p, v);
    ReplacePasses(t.head, s2, p, v);
  }

  // ---- replacing in any order --------------------------------------------------------------

  function Step(text: string, b: Blank, value: Blank -> string): string {
    ReplaceAll(text, Placeholder(b), value(b))
  }

  /** The replacements of genarateKubeconfig, one after the other in the given order. */
  function InOrder(text: string, order: seq<Blank>, value: Blank -> string): string
    decreases |order|
  {
    if |order| == 0 then text else InOrder(Step(text, order[0], value), order[1..], value)
  }

  function Sequential(t: Layout, value: Blank -> string): string {
    InOrder(Fill(t, Placeholder), [Host, CaCert, Cert, Key], value)
  }

  /** The blanks of `done` filled in, the others still showing their placeholders. */
  function Partly(done: set<Blank>, value: Blank -> string): Blank -> string {
    b => if b in done then value(b) else Placeholder(b)
  }

  lemma FillCongruence(t: Layout, f: Blank -> string, g: Blank -> string)
    requires forall b: Blank :: f(b) == g(b)
    ensures Fill(t, f) == Fill(t, g)
  {
  }

  lemma StepFills(t: Layout, done: set<Blank>, b: Blank, value: Blank -> string)
    requires t.Valid()
    requires forall x: Blank :: '<' !in value(x)
    ensures Step(Fill(t, Partly(done, value)), b, value) == Fill(t, Partly(done + {b}, value))
    requires b !in done
  {
    var partly := Partly(done, value);
    ReplaceInFill(t, partly, Placeholder(b), value(b));
    forall x: Blank
      ensures ReplaceAll(partly(x), Placeholder(b), value(b)) == Partly(done + {b}, value)(x)
    {
      if x in done {
        ReplaceInValue(value(x), Placeholder(b), value(b));
      } else {
        PlaceholdersDiffer(b, x);
        ReplaceInPlaceholder(Placeholder(x), Placeholder(b), value(b));
      }
    }
    FillCongruence(t, Replaced(partly, Placeholder(b), value(b)), Partly(done + {b}, value));
  }

  lemma InOrderStep(text: string, next: string, order: seq<Blank>, value: Blank -> string)
    requires |order| > 0 && Step(text, order[0], value) == next
    ensures InOrder(text, order, value) == InOrder(next, order[1..], value)
  {
  }

  lemma NextFills(t: Layout, done: set<Blank>, order: seq<Blank>, value: Blank -> string)
    requires t.Valid()
    requires forall x: Blank :: '<' !in value(x)
    requires |order| > 0 && order[0] !in done
    requires InOrder(Fill(t, Partly(done + {order[0]}, value)), order[1..], value) == Fill(t, value)
    ensures InOrder(Fill(t, Partly(done, value)), order, value) == Fill(t, value)
  {
    StepFills(t, done, order[0], value);
    InOrderStep(Fill(t, Partly(done, value)), Fill(t, Partly(done + {order[0]}, value)), order, value);
  }

  /** The blanks still to come are those not filled yet. */
  predicate Remaining(done: set<Blank>, order: seq<Blank>) {
    && (forall i, j :: 0 <= i < j < |order| ==> order[i] != order[j])
    && forall x: Blank :: x in done <==> x !in order
  }

  lemma RemainingAfter(done: set<Blank>, order: seq<Blank>)
    requires Remaining(done, order) && |order| > 0
    ensures Remaining(done + {order[0]}, order[1..])
  {
  }

  lemma {:induction false} OrderFills(t: Layout, done: set<Blank>, order: seq<Blank>, value: Blank -> string)
    requires t.Valid()
    requires (forall x: Blank :: '<' !in value(x)) && Remaining(done, order)
    ensures InOrder(Fill(t, Partly(done, value)), order, value) == Fill(t, value)
    decreases |order|
  {
    if |order| == 0 {
      FillCongruence(t, Partly(done, value), value);
    } else {
      RemainingAfter(done, order);
      OrderFills(t, done + {order[0]}, order[1..], value);
      NextFills(t, done, order, value);
    }
  }

  lemma NothingFilled(t: Layout, value: Blank -> string)
    ensures Fill(t, Placeholder) == Fill(t, Partly({}, value))
  {
  }

  /** Without a bracket in any value, every order of the four replacements fills all blanks at once. */
  lemma AnyOrderFills(t: Layout, order: seq<Blank>, value: Blank -> string)
    requires t.Valid()
    requires forall x: Blank :: '<' !in value(x)
    requires forall i, j :: 0 <= i < j < |order| ==> order[i] != order[j]
    requires forall b: Blank :: b in order
    ensures InOrder(Fill(t, Placeholder), order, value) == Fill(t, value)
  {
    NothingFilled(t, value);
    OrderFills(t, {}, order, value);
  }

  // ---- the host ----------------------------------------------------------------------------

  predicate EncodedValues(value: Blank -> string) {
    '<' !in value(CaCert) && '<' !in value(Cert) && '<' !in value(Key)
  }

  /** What the later replacements make of the host. */
  function HostAfter(value: Blank -> string): string {
    var host := value(Host);
    Step(Step(Step(host, CaCert, value), Cert, value), Key, value)
  }

  function Brackets(s: string): nat {
    if |s| == 0 then 0 else (if s[0] == '<' then 1 else 0) + Brackets(s[1..])
  }

  lemma {:induction false} BracketsConcat(s: string, t: string)
    ensures Brackets(s + t) == Brackets(s) + Brackets(t)
    decreases |s|
  {
    if |s| == 0 {
      assert s + t == t;
    } else {
      assert (s + t)[1..] == s[1..] + t;
      BracketsConcat(s[1..], t);
    }
  }

  lemma {:induction false} NoBrackets(s: string)
    requires '<' !in s
    ensures Brackets(s) == 0
    decreases |s|
  {
    if |s| == 0 {
    } else {
      assert s[0] in s;
      NoBrackets(s[1..]);
    }
  }

  /** Each replacement takes a bracket away. */
  lemma {:induction false} ReplaceTakesBrackets(s: string, p: string, v: string)
    requires IsPlaceholder(p) && '<' !in v
    ensures Brackets(ReplaceAll(s, p, v)) <= Brackets(s)
    ensures Contains(s, p) ==> Brackets(ReplaceAll(s, p, v)) < Brackets(s)
    decreases |s|
  {
    if |s| == 0 {
      assert !Contains(s, p);
    } else {
      ContainsTail(s, p);
      if p <= s {
        ReplaceTakesBrackets(s[|p|..], p, v);
        BracketsConcat(v, ReplaceAll(s[|p|..], p, v));
        NoBrackets(v);
        assert s == p + s[|p|..];
        BracketsConcat(p, s[|p|..]);
        assert '<' !in p[1..];
        NoBrackets(p[1..]);
      } else {
        ReplaceTakesBrackets(s[1..], p, v);
        assert ([s[0]] + ReplaceAll(s[1..], p, v))[1..] == ReplaceAll(s[1..], p, v);
      }
    }
  }

  ghost predicate HoldsPlaceholder(host: string) {
    Contains(host, Placeholder(CaCert)) || Contains(host, Placeholder(Cert)) || Contains(host, Placeholder(Key))
  }

  lemma HostUnchangedIff(value: Blank -> string)
    requires EncodedValues(value)
    ensures HostAfter(value) == value(Host) <==> !HoldsPlaceholder(value(Host))
  {
    var host := value(Host);
    var a := Step(host, CaCert, value);
    var b := Step(a, Cert, value);
    ReplaceTakesBrackets(host, Placeholder(CaCert), value(CaCert));
    ReplaceTakesBrackets(a, Placeholder(Cert), value(Cert));
    ReplaceTakesBrackets(b, Placeholder(Key), value(Key));
    if !Contains(host, Placeholder(CaCert)) {
      ReplaceNothing(host, Placeholder(CaCert), value(CaCert));
      if !Contains(host, Placeholder(Cert)) {
        ReplaceNothing(host, Placeholder(Cert), value(Cert));
        if !Contains(host, Placeholder(Key)) {
          ReplaceNothing(host, Placeholder(Key), value(Key));
        }
      }
    }
  }

  function WithHost(value: Blank -> string, host: string): Blank -> string {
    b => if b == Host then host else value(b)
  }

  /** The values when the first `n` replacements of the source's order have been made. */
  function Stage(value: Blank -> string, n: nat): Blank -> string {
    (b: Blank) => match b
      case Host =>
        if n == 0 then Placeholder(Host)
        else if n == 1 then value(Host)
        else if n == 2 then Step(value(Host), CaCert, value)
        else if n == 3 then Step(Step(value(Host), CaCert, value), Cert, value)
        else HostAfter(value)
      case CaCert => if n < 2 then Placeholder(CaCert) else value(CaCert)
      case Cert => if n < 3 then Placeholder(Cert) else value(Cert)
      case Key => if n < 4 then Placeholder(Key) else value(Key)
  }

  function Turn(n: nat): Blank
    requires n < 4
  {
    if n == 0 then Host else if n == 1 then CaCert else if n == 2 then Cert else Key
  }

  lemma StageAt(value: Blank -> string, n: nat, x: Blank)
    requires EncodedValues(value) && n < 4
    ensures ReplaceAll(Stage(value, n)(x), Placeholder(Turn(n)), value(Turn(n))) == Stage(value, n + 1)(x)
  {
    var b := Turn(n);
    PlaceholdersDiffer(b, x);
    ReplaceInPlaceholder(Placeholder(x), Placeholder(b), value(b));
    if x != Host {
      ReplaceInValue(value(x), Placeholder(b), value(b));
    }
  }

  lemma StageStep(t: Layout, value: Blank -> string, n: nat)
    requires t.Valid()
    requires EncodedValues(value) && n < 4
    ensures Step(Fill(t, Stage(value, n)), Turn(n), value) == Fill(t, Stage(value, n + 1))
  {
    var b := Turn(n);
    var now, next := Stage(value, n), Stage(value, n + 1);
    ReplaceInFill(t, now, Placeholder(b), value(b));
    forall x: Blank
      ensures Replaced(now, Placeholder(b), value(b))(x) == next(x)
    {
      StageAt(value, n, x);
    }
    FillCongruence(t, Replaced(now, Placeholder(b), value(b)), next);
  }

  lemma FourStages(t: Layout, value: Blank -> string)
    requires t.Valid()
    requires EncodedValues(value)
    ensures Step(Step(Step(Step(Fill(t, Placeholder), Host, value), CaCert, value), Cert, value), Key, value)
         == Fill(t, Stage(value, 4))
  {
    FillCongruence(t, Placeholder, Stage(value, 0));
    StageStep(t, value, 0);
    StageStep(t, value, 1);
    StageStep(t, value, 2);
    StageStep(t, value, 3);
  }

  lemma SequentialSteps(t: Layout, value: Blank -> string)
    ensures Sequential(t, value)
         == Step(Step(Step(Step(Fill(t, Placeholder), Host, value), CaCert, value), Cert, value), Key, value)
  {
  }

  /** Whatever the host, the four replacements fill the blanks at once except for what the last three do to it. */
  lemma SequentialFills(t: Layout, value: Blank -> string)
    requires t.Valid()
    requires EncodedValues(value)
    ensures Sequential(t, value) == Fill(t, WithHost(value, HostAfter(value)))
  {
    SequentialSteps(t, value);
    FourStages(t, value);
    FillCongruence(t, Stage(value, 4), WithHost(value, HostAfter(value)));
  }
}
