/** The pattern scanner of `LogFormatter::init` (sylar/log.cpp): the text of a
    log pattern is cut into literals and `%name{format}` directives.

    `Scan` is the scanner as a function of the text still to be read and the
    literal collected so far; the class below is the loop nest itself. */
module LogPattern {

  /** One entry of the scanner's output. `braced` says whether the directive
      carried a `{...}` part, which an empty `fmt` alone does not tell.
      `Bad` is the entry pushed for a brace that is never closed. */
  datatype Token =
    | Lit(text: string)
    | Dir(name: string, fmt: string, braced: bool)
    | Bad

  /** What stands behind a percent sign. */
  datatype Directive = Closed(token: Token, rest: string) | Unclosed

  /** `isalpha` in the "C" locale. */
  predicate IsAlpha(c: char) {
    'a' <= c <= 'z' || 'A' <= c <= 'Z'
  }

  /** These are the 52 letters. */
  lemma AlphaExact(c: char)
    ensures IsAlpha(c) <==>
            || c in {'a', 'b', 'c', 'd', 'e', 'f', 'g', 'h', 'i', 'j', 'k', 'l', 'm'}
            || c in {'n', 'o', 'p', 'q', 'r', 's', 't', 'u', 'v', 'w', 'x', 'y', 'z'}
            || c in {'A', 'B', 'C', 'D', 'E', 'F', 'G', 'H', 'I', 'J', 'K', 'L', 'M'}
            || c in {'N', 'O', 'P', 'Q', 'R', 'S', 'T', 'U', 'V', 'W', 'X', 'Y', 'Z'}
  {
  }

  /** The characters a directive's name runs over: a stray closing brace does
      not end it. */
  predicate IsName(c: char) {
    IsAlpha(c) || c == '}'
  }

  predicate AllNames(s: string) {
    forall k :: 0 <= k < |s| ==> IsName(s[k])
  }

  predicate NoBrace(s: string) {
    forall k :: 0 <= k < |s| ==> s[k] != '}'
  }

  /** Reads on in a name, of which `name` has been read. */
  function ReadName(name: string, p: string): (d: Directive)
    ensures d.Closed? ==> |d.rest| <= |p| && d.token.Dir?
    decreases |p|
  {
    if p == "" then Closed(Dir(name, "", false), "")
    else if IsName(p[0]) then ReadName(name + [p[0]], p[1..])
    else if p[0] == '{' then ReadFormat(name, "", p[1..])
    else Closed(Dir(name, "", false), p)
  }

  /** Reads on in a format, up to the first closing brace. */
  function ReadFormat(name: string, fmt: string, p: string): (d: Directive)
    ensures d.Closed? ==> |d.rest| <= |p| && d.token.Dir?
    decreases |p|
  {
    if p == "" then Unclosed
    else if p[0] == '}' then Closed(Dir(name, fmt, true), p[1..])
    else ReadFormat(name, fmt + [p[0]], p[1..])
  }

  /** What follows a percent sign. */
  function ReadDirective(p: string): (d: Directive)
    ensures d.Closed? ==> |d.rest| <= |p| && d.token.Dir?
  {
    ReadName("", p)
  }

  lemma {:induction false} ReadNameRuns(name: string, s: string, q: string)
    requires AllNames(s)
    ensures ReadName(name, s + q) == ReadName(name + s, q)
    decreases |s|
  {
    if s == "" {
      assert s + q == q && name + s == name;
    } else {
      Shift(name, s, q);
      ReadNameRuns(name + [s[0]], s[1..], q);
    }
  }

  lemma {:induction false} ReadFormatRuns(name: string, fmt: string, s: string, q: string)
    requires NoBrace(s)
    ensures ReadFormat(name, fmt, s + q) == ReadFormat(name, fmt + s, q)
    decreases |s|
  {
    if s == "" {
      assert s + q == q && fmt + s == fmt;
    } else {
      Shift(fmt, s, q);
      ReadFormatRuns(name, fmt + [s[0]], s[1..], q);
    }
  }

  /** One character moves from what is to be read to what has been read. */
  lemma Shift(read: string, s: string, q: string)
    requires s != ""
    ensures (s + q)[1..] == s[1..] + q && read + [s[0]] + s[1..] == read + s
  {
  }

  function Flush(literal: string): seq<Token> {
    if literal == "" then [] else [Lit(literal)]
  }

  function Scan(p: string, literal: string): seq<Token>
    decreases |p|
  {
    if p == "" then Flush(literal)
    else if p[0] != '%' then Scan(p[1..], literal + [p[0]])
    else if |p| > 1 && p[1] == '%' then Scan(p[1..], literal + "%")
    else
      match ReadDirective(p[1..])
      case Closed(token, rest) => Flush(literal) + [token] + Scan(rest, "")
      case Unclosed => [Bad] + Scan(p[1..], literal)
  }

  predicate AllClosed(ts: seq<Token>) {
    Bad !in ts
  }

  // ---------- Writing tokens back ----------

  function PrintToken(t: Token): string {
    match t
    case Lit(text) => text
    case Dir(name, fmt, braced) => "%" + name + (if braced then "{" + fmt + "}" else "")
    case Bad => ""
  }

  function Print(ts: seq<Token>): string {
    if ts == [] then "" else PrintToken(ts[0]) + Print(ts[1..])
  }

  lemma PrintConcat(a: seq<Token>, b: seq<Token>)
    ensures Print(a + b) == Print(a) + Print(b)
  {
    if a == [] {
      assert a + b == b;
    } else {
      assert (a + b)[1..] == a[1..] + b;
    }
  }

  /** The five pieces of a braced directive and its rest, however grouped. */
  lemma Regroup(name: string, fmt: string, rest: string)
    ensures "%" + (name + ("{" + (fmt + ("}" + rest)))) == ("%" + name + ("{" + fmt + "}")) + rest
    ensures "%" + (name + rest) == ("%" + name + "") + rest
  {
  }

  lemma ClosingGroups(name: string, fmt: string, p: string)
    requires p != "" && p[0] == '}'
    ensures "%" + name + ("{" + (fmt + p)) == ("%" + name + ("{" + fmt + "}")) + p[1..]
  {
    assert p == "}" + p[1..];
    Regroup(name, fmt, p[1..]);
    assert "%" + name + ("{" + (fmt + ("}" + p[1..]))) == "%" + (name + ("{" + (fmt + ("}" + p[1..]))));
  }

  lemma OpeningGroups(name: string, p: string)
    requires p != "" && p[0] == '{'
    ensures "%" + name + p == "%" + name + ("{" + ("" + p[1..]))
  {
    assert p == "{" + p[1..] && "" + p[1..] == p[1..];
  }

  lemma Moves(read: string, p: string)
    requires p != ""
    ensures read + [p[0]] + p[1..] == read + p && "%" + (read + [p[0]]) + p[1..] == "%" + read + p
  {
    assert p == [p[0]] + p[1..];
  }

  lemma BareGroups(name: string, p: string)
    ensures "%" + name + p == ("%" + name + "") + p
  {
  }

  lemma {:induction false} ReadFormatPrints(name: string, fmt: string, p: string)
    requires ReadFormat(name, fmt, p).Closed?
    ensures var d := ReadFormat(name, fmt, p); "%" + name + ("{" + (fmt + p)) == PrintToken(d.token) + d.rest
    decreases |p|
  {
    if p != "" {
      if p[0] == '}' {
        ClosingGroups(name, fmt, p);
      } else {
        ReadFormatPrints(name, fmt + [p[0]], p[1..]);
        Moves(fmt, p);
      }
    }
  }

  lemma {:induction false} ReadNamePrints(name: string, p: string)
    requires ReadName(name, p).Closed?
    ensures var d := ReadName(name, p); "%" + name + p == PrintToken(d.token) + d.rest
    decreases |p|
  {
    BareGroups(name, p);
    if p != "" {
      if IsName(p[0]) {
        ReadNamePrints(name + [p[0]], p[1..]);
        Moves(name, p);
      } else if p[0] == '{' {
        ReadFormatPrints(name, "", p[1..]);
        OpeningGroups(name, p);
      }
    }
  }

  lemma ReadPrints(p: string)
    requires ReadDirective(p).Closed?
    ensures "%" + p == PrintToken(ReadDirective(p).token) + ReadDirective(p).rest
  {
    ReadNamePrints("", p);
    assert "%" + "" + p == "%" + p;
  }

  lemma BadShows(ts: seq<Token>)
    ensures !AllClosed([Bad] + ts)
  {
    assert ([Bad] + ts)[0] == Bad;
  }

  /** A literal and the token behind it, in front of other tokens. */
  lemma StepPrints(literal: string, token: Token, ts: seq<Token>)
    ensures Print(Flush(literal) + [token] + ts) == literal + (PrintToken(token) + Print(ts))
  {
    PrintConcat(Flush(literal), [token] + ts);
    PrintConcat([token], ts);
    assert Flush(literal) + [token] + ts == Flush(literal) + ([token] + ts);
    assert Print([token]) == PrintToken(token) + "" && Print(Flush(literal)) == literal;
  }

  lemma {:induction false} LosslessFrom(p: string, literal: string)
    requires AllClosed(Scan(p, literal))
    ensures Print(Scan(p, literal)) == literal + p
    decreases |p|
  {
    if p == "" {
      assert literal + p == literal;
    } else if p[0] != '%' {
      LosslessFrom(p[1..], literal + [p[0]]);
      assert literal + [p[0]] + p[1..] == literal + p;
    } else if |p| > 1 && p[1] == '%' {
      LosslessFrom(p[1..], literal + "%");
      assert literal + "%" + p[1..] == literal + p;
    } else {
      BadShows(Scan(p[1..], literal));
      var d := ReadDirective(p[1..]);
      assert d.Closed?;
      assert AllClosed(Scan(d.rest, "")) by {
        assert forall t :: t in Scan(d.rest, "") ==> t in Scan(p, literal);
      }
      LosslessFrom(d.rest, "");
      assert "" + d.rest == d.rest;
      ReadPrints(p[1..]);
      StepPrints(literal, d.token, Scan(d.rest, ""));
      assert p == "%" + p[1..];
    }
  }

  /** Scanning loses nothing: when every brace closes, writing the tokens back
      in order gives the pattern, the `%%` sequences included. */
  lemma Lossless(p: string)
    requires AllClosed(Scan(p, ""))
    ensures Print(Scan(p, "")) == p
  {
    LosslessFrom(p, "");
    assert "" + p == p;
  }

  // ---------- Patterns with open braces ----------

  /** `q` is `p` without `k` of its percent signs. */
  predicate Drops(p: string, q: string, k: nat)
    decreases |p|
  {
    if p == "" then q == "" && k == 0
    else
      || (q != "" && q[0] == p[0] && Drops(p[1..], q[1..], k))
      || (p[0] == '%' && k > 0 && Drops(p[1..], q, k - 1))
  }

  function Errors(ts: seq<Token>): nat {
    if ts == [] then 0 else (if ts[0].Bad? then 1 else 0) + Errors(ts[1..])
  }

  lemma {:induction false} ErrorsConcat(a: seq<Token>, b: seq<Token>)
    ensures Errors(a + b) == Errors(a) + Errors(b)
    decreases |a|
  {
    if a == [] {
      assert a + b == b;
    } else {
      assert (a + b)[1..] == a[1..] + b;
      ErrorsConcat(a[1..], b);
    }
  }

  lemma {:induction false} DropsBehind(a: string, p: string, q: string, k: nat)
    requires Drops(p, q, k)
    ensures Drops(a + p, a + q, k)
    decreases |a|
  {
    if a == "" {
      assert a + p == p && a + q == q;
    } else {
      assert (a + p)[1..] == a[1..] + p && (a + q)[1..] == a[1..] + q;
      DropsBehind(a[1..], p, q, k);
    }
  }

  /** One more percent sign, somewhere, is one more that is dropped. */
  lemma {:induction false} DropsOneMore(a: string, b: string, q: string, k: nat)
    requires Drops(a + b, q, k)
    ensures Drops(a + ("%" + b), q, k + 1)
    decreases |a|
  {
    if a == "" {
      assert a + b == b && a + ("%" + b) == "%" + b && ("%" + b)[1..] == b;
    } else {
      var p := a + b;
      assert p[1..] == a[1..] + b && (a + ("%" + b))[1..] == a[1..] + ("%" + b);
      if q != "" && q[0] == p[0] && Drops(p[1..], q[1..], k) {
        DropsOneMore(a[1..], b, q[1..], k);
      } else {
        DropsOneMore(a[1..], b, q, k - 1);
      }
    }
  }

  lemma {:induction false} DropsNone(p: string)
    ensures Drops(p, p, 0)
    decreases |p|
  {
    if p != "" { DropsNone(p[1..]); }
  }

  lemma StepErrors(literal: string, token: Token, ts: seq<Token>)
    requires !token.Bad?
    ensures Errors(Flush(literal) + [token] + ts) == Errors(ts)
  {
    ErrorsConcat(Flush(literal) + [token], ts);
    ErrorsConcat(Flush(literal), [token]);
  }

  /** A directive and its literal in front of what drops some signs. */
  lemma DropsStep(literal: string, token: Token, rest: string, ts: seq<Token>, k: nat)
    requires Drops(rest, Print(ts), k)
    ensures Drops(literal + (PrintToken(token) + rest), Print(Flush(literal) + [token] + ts), k)
  {
    StepPrints(literal, token, ts);
    DropsBehind(PrintToken(token), rest, Print(ts), k);
    DropsBehind(literal, PrintToken(token) + rest, PrintToken(token) + Print(ts), k);
  }

  /** What follows an open brace, in front of what drops some signs. */
  lemma DropsOpen(p: string, literal: string, ts: seq<Token>)
    requires p != "" && p[0] == '%' && Drops(literal + p[1..], Print(ts), Errors(ts))
    ensures Drops(literal + p, Print([Bad] + ts), Errors([Bad] + ts))
  {
    DropsOneMore(literal, p[1..], Print(ts), Errors(ts));
    assert p == "%" + p[1..];
    PrintConcat([Bad], ts);
    ErrorsConcat([Bad], ts);
    assert Print([Bad]) == "" && "" + Print(ts) == Print(ts);
  }

  lemma {:induction false} ErrorsDrop(p: string, literal: string)
    ensures Drops(literal + p, Print(Scan(p, literal)), Errors(Scan(p, literal)))
    decreases |p|
  {
    if p == "" {
      assert literal + p == literal && Print(Flush(literal)) == literal;
      DropsNone(literal);
    } else if p[0] != '%' {
      ErrorsDrop(p[1..], literal + [p[0]]);
      assert literal + [p[0]] + p[1..] == literal + p;
    } else if |p| > 1 && p[1] == '%' {
      ErrorsDrop(p[1..], literal + "%");
      assert literal + "%" + p[1..] == literal + p;
    } else {
      match ReadDirective(p[1..])
      case Closed(token, rest) =>
        ErrorsDrop(rest, "");
        assert "" + rest == rest;
        ReadPrints(p[1..]);
        assert p == "%" + p[1..];
        DropsStep(literal, token, rest, Scan(rest, ""), Errors(Scan(rest, "")));
        StepErrors(literal, token, Scan(rest, ""));
      case Unclosed =>
        ErrorsDrop(p[1..], literal);
        DropsOpen(p, literal, Scan(p[1..], literal));
    }
  }

  /** For every pattern: writing the tokens back, with nothing for an error, gives the
      pattern without as many percent signs as errors were reported; scanning loses
      nothing else. */
  lemma LosslessButErrors(p: string)
    ensures Drops(p, Print(Scan(p, "")), Errors(Scan(p, "")))
  {
    ErrorsDrop(p, "");
    assert "" + p == p;
  }

  /** The literal at `i` reaches up to a directive or the end. */
  predicate Reaches(ts: seq<Token>, i: nat)
    requires i < |ts|
  {
    ts[i].Lit? ==> i + 1 == |ts| || ts[i + 1].Dir?
  }

  lemma {:induction false} LiteralsReach(p: string, literal: string, i: nat)
    requires i < |Scan(p, literal)|
    ensures Reaches(Scan(p, literal), i)
    decreases |p|
  {
    if p != "" {
      if p[0] != '%' {
        LiteralsReach(p[1..], literal + [p[0]], i);
      } else if |p| > 1 && p[1] == '%' {
        LiteralsReach(p[1..], literal + "%", i);
      } else {
        match ReadDirective(p[1..])
        case Closed(token, rest) =>
          var front := |Flush(literal)| + 1;
          if i >= front { LiteralsReach(rest, "", i - front); }
        case Unclosed =>
          if i > 0 { LiteralsReach(p[1..], literal, i - 1); }
      }
    }
  }

  /** An error does not cut the text around it: every literal reaches up to the next
      directive or the end of the pattern, and the errors met on the way stand in front
      of it. */
  lemma ErrorsCutNothing(p: string, i: nat)
    requires i < |Scan(p, "")|
    ensures var ts := Scan(p, ""); ts[i].Lit? ==> i + 1 == |ts| || ts[i + 1].Dir?
  {
    LiteralsReach(p, "", i);
  }

  // ---------- Which token lists come out of a scan ----------

  /** Percent signs stand only at the end of a literal. */
  predicate PercentTail(s: string) {
    forall i, j :: 0 <= i < j < |s| && s[i] == '%' ==> s[j] == '%'
  }

  predicate EndsWithPercent(s: string) {
    s != "" && s[|s| - 1] == '%'
  }

  predicate GoodToken(t: Token) {
    match t
    case Lit(text) => text != "" && PercentTail(text)
    case Dir(name, fmt, braced) =>
      && AllNames(name) && NoBrace(fmt)
      && (braced || fmt == "")
    case Bad => false
  }

  /** The character that may follow an unbraced directive called `name`. */
  predicate Terminates(name: string, c: char) {
    !IsName(c) && c != '{' && (name == "" ==> c != '%')
  }

  /** The first character a token prints. */
  function FirstChar(t: Token): char {
    if t.Lit? && t.text != "" then t.text[0] else '%'
  }

  /** What may follow a token; `next` is empty at the end of the list. */
  predicate Fits(t: Token, next: seq<Token>) {
    match t
    case Lit(text) => if next == [] then !EndsWithPercent(text) else next[0].Dir?
    case Dir(name, _, braced) =>
      braced || next == [] || Terminates(name, FirstChar(next[0]))
    case Bad => false
  }

  /** The token at `i` is well formed and fits what follows it. */
  predicate WellPlaced(ts: seq<Token>, i: nat)
    requires i < |ts|
  {
    GoodToken(ts[i]) && Fits(ts[i], ts[i + 1..])
  }

  predicate Canonical(ts: seq<Token>) {
    forall i {:trigger WellPlaced(ts, i)} :: 0 <= i < |ts| ==> WellPlaced(ts, i)
  }

  lemma CanonicalTail(ts: seq<Token>)
    requires Canonical(ts) && ts != []
    ensures Canonical(ts[1..])
  {
    forall i | 0 <= i < |ts| - 1 ensures WellPlaced(ts[1..], i) {
      assert ts[1..][i + 1..] == ts[i + 2..];
      assert WellPlaced(ts, i + 1);
    }
  }

  lemma CanonicalCons(t: Token, ts: seq<Token>)
    requires Canonical(ts) && GoodToken(t) && Fits(t, ts)
    ensures Canonical([t] + ts)
  {
    var all := [t] + ts;
    forall i | 0 <= i < |all| ensures WellPlaced(all, i) {
      if i == 0 {
        assert all[1..] == ts;
      } else {
        assert all[i + 1..] == ts[i..];
        assert WellPlaced(ts, i - 1);
      }
    }
  }

  /** A literal is read character by character up to the directive behind it. */
  lemma {:induction false} ScanLiteral(s: string, q: string, literal: string)
    requires PercentTail(s)
    requires EndsWithPercent(s) ==> q != "" && q[0] == '%'
    ensures Scan(s + q, literal) == Scan(q, literal + s)
    decreases |s|
  {
    if s == "" {
      assert s + q == q && literal + s == literal;
    } else {
      assert (s + q)[1..] == s[1..] + q;
      assert literal + [s[0]] + s[1..] == literal + s;
      assert PercentTail(s[1..]);
      if s[0] == '%' {
        assert s[|s| - 1] == '%';
        assert (s + q)[1] == '%';
      }
      ScanLiteral(s[1..], q, literal + [s[0]]);
    }
  }

  lemma ReadBraced(name: string, fmt: string, rest: string)
    requires AllNames(name) && NoBrace(fmt)
    ensures ReadDirective(name + ("{" + (fmt + ("}" + rest)))) == Closed(Dir(name, fmt, true), rest)
  {
    var body := fmt + ("}" + rest);
    ReadNameRuns("", name, "{" + body);
    assert "" + name == name && ("{" + body)[1..] == body;
    ReadFormatRuns(name, "", fmt, "}" + rest);
    assert "" + fmt == fmt && ("}" + rest)[1..] == rest;
  }

  lemma ReadOpen(name: string, fmt: string)
    requires AllNames(name) && NoBrace(fmt)
    ensures ReadDirective(name + ("{" + fmt)) == Unclosed
  {
    ReadNameRuns("", name, "{" + fmt);
    assert "" + name == name && ("{" + fmt)[1..] == fmt;
    ReadFormatRuns(name, "", fmt, "");
    assert fmt + "" == fmt;
  }

  lemma ReadBare(name: string, rest: string)
    requires AllNames(name) && (rest == "" || (!IsName(rest[0]) && rest[0] != '{'))
    ensures ReadDirective(name + rest) == Closed(Dir(name, "", false), rest)
  {
    ReadNameRuns("", name, rest);
    assert "" + name == name;
  }

  /** A printed directive is read back as itself, with what follows it left. */
  lemma ReadPrinted(t: Token, rest: string)
    requires t.Dir? && GoodToken(t)
    requires t.braced || rest == "" || Terminates(t.name, rest[0])
    ensures ReadDirective((PrintToken(t) + rest)[1..]) == Closed(t, rest)
    ensures PrintToken(t)[0] == '%'
    ensures |PrintToken(t) + rest| > 1 ==> (PrintToken(t) + rest)[1] != '%'
  {
    Regroup(t.name, t.fmt, rest);
    var p := if t.braced then t.name + ("{" + (t.fmt + ("}" + rest))) else t.name + rest;
    assert PrintToken(t) + rest == "%" + p;
    if t.braced { ReadBraced(t.name, t.fmt, rest); } else { ReadBare(t.name, rest); }
    assert ("%" + p)[1..] == p;
    assert p != "" ==> p[0] == if t.name != "" then t.name[0] else if t.braced then '{' else rest[0];
  }

  lemma ScanPrintedDirective(t: Token, rest: string, literal: string)
    requires t.Dir? && GoodToken(t)
    requires t.braced || rest == "" || Terminates(t.name, rest[0])
    ensures Scan(PrintToken(t) + rest, literal) == Flush(literal) + [t] + Scan(rest, "")
  {
    ReadPrinted(t, rest);
    assert (PrintToken(t) + rest)[0] == '%';
  }

  lemma PrintFirst(ts: seq<Token>)
    requires Canonical(ts) && ts != []
    ensures Print(ts) != ""
    ensures Print(ts)[0] == FirstChar(ts[0])
  {
    assert WellPlaced(ts, 0);
  }

  lemma TailFits(ts: seq<Token>)
    requires Canonical(ts) && ts != []
    ensures GoodToken(ts[0]) && Fits(ts[0], ts[1..]) && Canonical(ts[1..])
  {
    CanonicalTail(ts);
    assert WellPlaced(ts, 0);
  }

  lemma NextTerminates(ts: seq<Token>)
    requires Canonical(ts) && ts != [] && ts[0].Dir?
    ensures GoodToken(ts[0])
    ensures var rest := Print(ts[1..]); ts[0].braced || rest == "" || Terminates(ts[0].name, rest[0])
  {
    TailFits(ts);
    if ts[1..] != [] { PrintFirst(ts[1..]); }
  }

  lemma Associates(a: seq<Token>, b: seq<Token>, c: seq<Token>)
    ensures a + b + c == a + (b + c)
  {
  }

  /** A directive in front of a list that is read back as itself. */
  lemma DirectiveReadBack(literal: string, ts: seq<Token>)
    requires Canonical(ts) && ts != [] && ts[0].Dir? && Scan(Print(ts[1..]), "") == ts[1..]
    ensures Scan(Print(ts), literal) == Flush(literal) + ts
  {
    NextTerminates(ts);
    ScanPrintedDirective(ts[0], Print(ts[1..]), literal);
    Associates(Flush(literal), [ts[0]], ts[1..]);
    assert [ts[0]] + ts[1..] == ts;
  }

  lemma LiteralReadBack(ts: seq<Token>)
    requires Canonical(ts) && ts != [] && ts[0].Lit?
    requires ts[1..] != [] ==> Scan(Print(ts[1..]), ts[0].text) == Flush(ts[0].text) + ts[1..]
    ensures Scan(Print(ts), "") == ts
  {
    TailFits(ts);
    var text := ts[0].text;
    if ts[1..] != [] {
      TailFits(ts[1..]);
      PrintFirst(ts[1..]);
    }
    ScanLiteral(text, Print(ts[1..]), "");
    assert "" + text == text;
    assert Flush(text) + ts[1..] == ts;
  }

  lemma {:induction false} RoundTripFrom(ts: seq<Token>)
    requires Canonical(ts)
    ensures Scan(Print(ts), "") == ts
    decreases |ts|
  {
    if ts != [] {
      TailFits(ts);
      if ts[0].Dir? {
        RoundTripFrom(ts[1..]);
        DirectiveReadBack("", ts);
        assert Flush("") + ts == ts;
      } else {
        var tail := ts[1..];
        if tail != [] {
          TailFits(tail);
          RoundTripFrom(tail[1..]);
          DirectiveReadBack(ts[0].text, tail);
        }
        LiteralReadBack(ts);
      }
    }
  }

  lemma {:induction false} ReadFormatGood(name: string, fmt: string, p: string)
    requires AllNames(name) && NoBrace(fmt) && ReadFormat(name, fmt, p).Closed?
    ensures GoodToken(ReadFormat(name, fmt, p).token) && ReadFormat(name, fmt, p).token.braced
    decreases |p|
  {
    if p != "" && p[0] != '}' { ReadFormatGood(name, fmt + [p[0]], p[1..]); }
  }

  lemma {:induction false} ReadNameGood(name: string, p: string)
    requires AllNames(name) && ReadName(name, p).Closed?
    ensures var d := ReadName(name, p);
            && GoodToken(d.token)
            && (d.token.braced || d.rest == "" || (!IsName(d.rest[0]) && d.rest[0] != '{'))
            && (!d.token.braced && d.token.name == "" ==> d.rest == p)
    decreases |p|
  {
    if p != "" {
      if IsName(p[0]) {
        ReadNameGood(name + [p[0]], p[1..]);
        ReadNameGrows(name + [p[0]], p[1..]);
      } else if p[0] == '{' {
        ReadFormatGood(name, "", p[1..]);
      }
    }
  }

  lemma {:induction false} ReadFormatGrows(name: string, fmt: string, p: string)
    ensures var d := ReadFormat(name, fmt, p); d.Closed? ==> d.token.name == name
    decreases |p|
  {
    if p != "" && p[0] != '}' { ReadFormatGrows(name, fmt + [p[0]], p[1..]); }
  }

  lemma {:induction false} ReadNameGrows(name: string, p: string)
    ensures var d := ReadName(name, p); d.Closed? ==> |name| <= |d.token.name|
    decreases |p|
  {
    if p != "" {
      if IsName(p[0]) { ReadNameGrows(name + [p[0]], p[1..]); }
      else if p[0] == '{' { ReadFormatGrows(name, "", p[1..]); }
    }
  }

  lemma ReadGood(p: string)
    requires ReadDirective(p).Closed? && (p != "" ==> p[0] != '%')
    ensures var d := ReadDirective(p);
            GoodToken(d.token) && (d.token.braced || d.rest == "" || Terminates(d.token.name, d.rest[0]))
  {
    ReadNameGood("", p);
  }

  lemma DirectiveFirst(token: Token, rest: string, later: seq<Token>)
    requires token.Dir? && GoodToken(token)
    requires token.braced || rest == "" || Terminates(token.name, rest[0])
    requires Canonical(later) && Print(later) == rest
    ensures Canonical([token] + later)
  {
    if later != [] { PrintFirst(later); }
    assert Fits(token, later);
    CanonicalCons(token, later);
  }

  lemma LiteralFirst(literal: string, ts: seq<Token>)
    requires Canonical(ts) && ts != [] && ts[0].Dir? && PercentTail(literal)
    ensures Canonical(Flush(literal) + ts)
  {
    if literal == "" {
      assert Flush(literal) + ts == ts;
    } else {
      assert GoodToken(Lit(literal)) && Fits(Lit(literal), ts);
      CanonicalCons(Lit(literal), ts);
    }
  }

  lemma CanonicalStep(literal: string, token: Token, rest: string, later: seq<Token>)
    requires token.Dir? && GoodToken(token)
    requires token.braced || rest == "" || Terminates(token.name, rest[0])
    requires Canonical(later) && Print(later) == rest
    requires PercentTail(literal)
    ensures Canonical(Flush(literal) + [token] + later)
  {
    DirectiveFirst(token, rest, later);
    BehindLiteral(literal, token, later);
  }

  lemma BehindLiteral(literal: string, token: Token, later: seq<Token>)
    requires token.Dir? && PercentTail(literal) && Canonical([token] + later)
    ensures Canonical(Flush(literal) + [token] + later)
  {
    var ts := [token] + later;
    assert ts[0] == token;
    LiteralFirst(literal, ts);
    assert Flush(literal) + [token] + later == Flush(literal) + ts;
  }

  lemma {:induction false} ScanCanonicalFrom(p: string, literal: string)
    requires AllClosed(Scan(p, literal))
    requires PercentTail(literal) && (EndsWithPercent(literal) ==> p != "" && p[0] == '%')
    ensures Canonical(Scan(p, literal))
    decreases |p|
  {
    if p == "" {
    } else if p[0] != '%' {
      ScanCanonicalFrom(p[1..], literal + [p[0]]);
    } else if |p| > 1 && p[1] == '%' {
      ScanCanonicalFrom(p[1..], literal + "%");
    } else {
      match ReadDirective(p[1..])
      case Unclosed =>
        BadShows(Scan(p[1..], literal));
        assert false;
      case Closed(token, rest) =>
        var later := Scan(rest, "");
        assert AllClosed(later) by {
          assert forall t :: t in later ==> t in Scan(p, literal);
        }
        ScanCanonicalFrom(rest, "");
        LosslessFrom(rest, "");
        assert "" + rest == rest;
        ReadGood(p[1..]);
        CanonicalStep(literal, token, rest, later);
    }
  }

  lemma ScanCanonical(p: string)
    requires AllClosed(Scan(p, ""))
    ensures Canonical(Scan(p, ""))
  {
    ScanCanonicalFrom(p, "");
  }

  /** Printing and scanning are inverse to each other: exactly the canonical
      lists are read back as themselves, and they are exactly the lists the
      scanner produces from patterns whose braces all close. */
  lemma RoundTrip(ts: seq<Token>)
    ensures Canonical(ts) <==> AllClosed(ts) && Scan(Print(ts), "") == ts
  {
    if Canonical(ts) {
      RoundTripFrom(ts);
      forall t | t in ts ensures t != Bad {
        var i :| 0 <= i < |ts| && ts[i] == t;
        assert WellPlaced(ts, i);
      }
    }
    if AllClosed(ts) && Scan(Print(ts), "") == ts {
      ScanCanonical(Print(ts));
    }
  }

  /** Two patterns whose braces all close and that scan alike are the same
      text. */
  lemma ScanInjective(p: string, q: string)
    requires AllClosed(Scan(p, "")) && Scan(p, "") == Scan(q, "")
    ensures p == q
  {
    Lossless(p);
    Lossless(q);
  }

  /** A percent sign reaches a literal only in front of another directive: the
      second sign of `%%` is not consumed, it opens the directive that
      follows. */
  lemma PercentOpensDirective(p: string, i: nat)
    requires AllClosed(Scan(p, ""))
    requires i < |Scan(p, "")| && Scan(p, "")[i].Lit? && '%' in Scan(p, "")[i].text
    ensures i + 1 < |Scan(p, "")| && Scan(p, "")[i + 1].Dir?
  {
    var ts := Scan(p, "");
    ScanCanonicalFrom(p, "");
    assert WellPlaced(ts, i);
    assert EndsWithPercent(ts[i].text);
  }

  // ---------- Directives by position ----------

  predicate NamesIn(p: string, a: nat, b: nat) {
    forall k :: a <= k < b && k < |p| ==> IsName(p[k])
  }

  predicate LettersIn(p: string, a: nat, b: nat) {
    forall k :: a <= k < b && k < |p| ==> IsAlpha(p[k])
  }

  predicate NoCloseIn(p: string, a: nat, b: nat) {
    forall k :: a <= k < b && k < |p| ==> p[k] != '}'
  }

  /** Where the name that begins at `a` ends. */
  function NameEnd(p: string, a: nat): (n: nat)
    requires a <= |p|
    ensures a <= n <= |p| && NamesIn(p, a, n) && (n < |p| ==> !IsName(p[n]))
    decreases |p| - a
  {
    if a < |p| && IsName(p[a]) then NameEnd(p, a + 1) else a
  }

  /** Where the first closing brace from `a` on stands. */
  function CloseEnd(p: string, a: nat): (m: nat)
    requires a <= |p|
    ensures a <= m <= |p| && NoCloseIn(p, a, m) && (m < |p| ==> p[m] == '}')
    decreases |p| - a
  {
    if a < |p| && p[a] != '}' then CloseEnd(p, a + 1) else a
  }

  lemma NamesSlice(p: string, a: nat, b: nat)
    requires a <= b <= |p|
    ensures NamesIn(p, a, b) ==> AllNames(p[a..b])
    ensures NoCloseIn(p, a, b) ==> NoBrace(p[a..b])
  {
  }

  lemma CutAt(p: string, a: nat, n: nat)
    requires a <= n <= |p|
    ensures p[a..] == p[a..n] + p[n..]
  {
  }

  lemma FirstOf(p: string, n: nat)
    requires n < |p|
    ensures p[n..] == [p[n]] + p[n + 1..] && p[n..][1..] == p[n + 1..]
  {
  }

  lemma BareRead(p: string, c: nat, n: nat)
    requires c < n <= |p| && NamesIn(p, c + 1, n) && (n < |p| ==> !IsName(p[n]) && p[n] != '{')
    ensures ReadDirective(p[c + 1..]) == Closed(Dir(p[c + 1..n], "", false), p[n..])
  {
    NamesSlice(p, c + 1, n);
    CutAt(p, c + 1, n);
    if n < |p| { FirstOf(p, n); }
    ReadBare(p[c + 1..n], p[n..]);
  }

  lemma BraceRead(p: string, c: nat, n: nat, m: nat)
    requires c < n < m <= |p| && NamesIn(p, c + 1, n) && p[n] == '{'
    requires NoCloseIn(p, n + 1, m) && (m < |p| ==> p[m] == '}')
    ensures ReadDirective(p[c + 1..]) ==
            if m < |p| then Closed(Dir(p[c + 1..n], p[n + 1..m], true), p[m + 1..]) else Unclosed
  {
    NamesSlice(p, n + 1, m);
    if m < |p| { BraceReadClosed(p, c, n, m); } else { BraceReadOpen(p, c, n); }
  }

  lemma BraceReadClosed(p: string, c: nat, n: nat, m: nat)
    requires c < n < m < |p| && NamesIn(p, c + 1, n) && p[n] == '{' && NoBrace(p[n + 1..m]) && p[m] == '}'
    ensures ReadDirective(p[c + 1..]) == Closed(Dir(p[c + 1..n], p[n + 1..m], true), p[m + 1..])
  {
    NamesSlice(p, c + 1, n);
    CutAt(p, c + 1, n);
    FirstOf(p, n);
    CutAt(p, n + 1, m);
    FirstOf(p, m);
    ReadBraced(p[c + 1..n], p[n + 1..m], p[m + 1..]);
  }

  lemma BraceReadOpen(p: string, c: nat, n: nat)
    requires c < n < |p| && NamesIn(p, c + 1, n) && p[n] == '{' && NoBrace(p[n + 1..|p|])
    ensures ReadDirective(p[c + 1..]) == Unclosed
  {
    NamesSlice(p, c + 1, n);
    CutAt(p, c + 1, n);
    FirstOf(p, n);
    Whole(p, n + 1);
    ReadOpen(p[c + 1..n], p[n + 1..]);
  }

  lemma Whole(p: string, a: nat)
    requires a <= |p|
    ensures p[a..|p|] == p[a..]
  {
  }

  /** The directive whose percent sign stands at `c`. */
  lemma ReadIs(p: string, c: nat) returns (n: nat, m: nat)
    requires c < |p|
    ensures c < n <= m <= |p| && NamesIn(p, c + 1, n) && (n < |p| ==> !IsName(p[n]))
    ensures n < |p| && p[n] == '{' ==>
              && n < m && NoCloseIn(p, n + 1, m) && (m < |p| ==> p[m] == '}')
              && ReadDirective(p[c + 1..]) ==
                 (if m < |p| then Closed(Dir(p[c + 1..n], p[n + 1..m], true), p[m + 1..]) else Unclosed)
    ensures !(n < |p| && p[n] == '{') ==> ReadDirective(p[c + 1..]) == Closed(Dir(p[c + 1..n], "", false), p[n..])
  {
    n := NameEnd(p, c + 1);
    if n < |p| && p[n] == '{' {
      m := CloseEnd(p, n + 1);
      BraceRead(p, c, n, m);
    } else {
      m := n;
      BareRead(p, c, n);
    }
  }

  predicate DirectiveAt(p: string, c: nat)
    requires c < |p|
  {
    p[c] == '%' && !(c + 1 < |p| && p[c + 1] == '%')
  }

  /** One turn of the scanner at `c`, by position: on a directive, and on any other
      character. */
  lemma ScanDirectiveAt(p: string, c: nat, literal: string)
    requires c < |p| && DirectiveAt(p, c)
    ensures Scan(p[c..], literal) ==
            match ReadDirective(p[c + 1..])
            case Closed(token, rest) => Flush(literal) + [token] + Scan(rest, "")
            case Unclosed => [Bad] + Scan(p[c + 1..], literal)
  {
    FirstOf(p, c);
    if c + 1 < |p| { FirstOf(p, c + 1); }
  }

  lemma ScanCharAt(p: string, c: nat, literal: string)
    requires c < |p| && !DirectiveAt(p, c)
    ensures Scan(p[c..], literal) == Scan(p[c + 1..], literal + [p[c]])
  {
    FirstOf(p, c);
    if c + 1 < |p| { FirstOf(p, c + 1); }
  }

  lemma ClosedConcat(a: seq<Token>, t: Token, b: seq<Token>)
    requires AllClosed(a) && t != Bad
    ensures AllClosed(a + [t] + b) <==> AllClosed(b)
    ensures forall u :: u in b ==> u in a + [t] + b
  {
    var all := a + [t] + b;
    assert forall k :: 0 <= k < |b| ==> all[|a| + 1 + k] == b[k];
  }

  /** Whether scanning on from `c` closes every brace, by position alone. */
  predicate CleanFrom(p: string, c: nat)
    requires c <= |p|
    decreases |p| - c
  {
    if c == |p| then true
    else if !DirectiveAt(p, c) then CleanFrom(p, c + 1)
    else
      var n := NameEnd(p, c + 1);
      if n < |p| && p[n] == '{' then
        var m := CloseEnd(p, n + 1);
        m < |p| && CleanFrom(p, m + 1)
      else CleanFrom(p, n)
  }

  lemma ErrorAt(p: string, c: nat, literal: string)
    requires c < |p| && DirectiveAt(p, c)
    ensures var d := ReadDirective(p[c + 1..]);
            AllClosed(Scan(p[c..], literal)) <==> d.Closed? && AllClosed(Scan(d.rest, ""))
  {
    ScanDirectiveAt(p, c, literal);
    BadShows(Scan(p[c + 1..], literal));
    var d := ReadDirective(p[c + 1..]);
    if d.Closed? { ClosedConcat(Flush(literal), d.token, Scan(d.rest, "")); }
  }

  lemma ErrorBare(p: string, c: nat, literal: string, n: nat)
    requires c < n <= |p| && DirectiveAt(p, c) && NamesIn(p, c + 1, n) && (n < |p| ==> !IsName(p[n]) && p[n] != '{')
    ensures AllClosed(Scan(p[c..], literal)) <==> AllClosed(Scan(p[n..], ""))
  {
    ErrorAt(p, c, literal);
    BareRead(p, c, n);
  }

  lemma ErrorBraced(p: string, c: nat, literal: string, n: nat, m: nat)
    requires c < n < m <= |p| && DirectiveAt(p, c) && NamesIn(p, c + 1, n) && p[n] == '{'
    requires NoCloseIn(p, n + 1, m) && (m < |p| ==> p[m] == '}')
    ensures AllClosed(Scan(p[c..], literal)) <==> m < |p| && AllClosed(Scan(p[m + 1..], ""))
  {
    ErrorAt(p, c, literal);
    BraceRead(p, c, n, m);
  }

  lemma {:induction false} CleanIsScan(p: string, c: nat, literal: string)
    requires c <= |p|
    ensures CleanFrom(p, c) <==> AllClosed(Scan(p[c..], literal))
    decreases |p| - c
  {
    if c == |p| {
    } else if DirectiveAt(p, c) {
      var n := NameEnd(p, c + 1);
      if n < |p| && p[n] == '{' {
        var m := CloseEnd(p, n + 1);
        ErrorBraced(p, c, literal, n, m);
        if m < |p| { CleanIsScan(p, m + 1, ""); }
      } else {
        ErrorBare(p, c, literal, n);
        CleanIsScan(p, n, "");
      }
    } else {
      ScanCharAt(p, c, literal);
      CleanIsScan(p, c + 1, literal + [p[c]]);
    }
  }

  lemma CleanIsAllClosed(p: string)
    ensures CleanFrom(p, 0) <==> AllClosed(Scan(p, ""))
  {
    assert p[0..] == p;
    CleanIsScan(p, 0, "");
  }

  // ---------- When a pattern has an open brace ----------

  /** A percent sign at `i`, then a name (letters only, or also stray closing
      braces) up to an opening brace at `j`, and no closing brace behind it. */
  predicate OpenBrace(p: string, i: nat, j: nat, strayAllowed: bool) {
    && i < j < |p| && p[i] == '%' && p[j] == '{'
    && (if strayAllowed then NamesIn(p, i + 1, j) else LettersIn(p, i + 1, j)) && NoCloseIn(p, j + 1, |p|)
  }

  ghost predicate HasOpenBrace(p: string) {
    exists i: nat, j: nat :: OpenBrace(p, i, j, true)
  }

  lemma {:induction false} ReportedFrom(p: string, c: nat)
    requires c <= |p| && !CleanFrom(p, c)
    ensures HasOpenBrace(p)
    decreases |p| - c
  {
    if DirectiveAt(p, c) {
      var n := NameEnd(p, c + 1);
      if n < |p| && p[n] == '{' {
        var m := CloseEnd(p, n + 1);
        if m < |p| { ReportedFrom(p, m + 1); } else { assert OpenBrace(p, c, n, true); }
      } else {
        ReportedFrom(p, n);
      }
    } else {
      ReportedFrom(p, c + 1);
    }
  }

  /** Every reported error is an open brace of the pattern. */
  lemma ReportedIsOpenBrace(p: string)
    requires !AllClosed(Scan(p, ""))
    ensures HasOpenBrace(p)
  {
    CleanIsAllClosed(p);
    ReportedFrom(p, 0);
  }

  /** The directive at `c`, in front of the open brace or at it, is left open or
      ends in front of it. */
  lemma EndsBefore(p: string, c: nat, i: nat, j: nat)
    requires OpenBrace(p, i, j, false) && c <= i && p[c] == '%'
    ensures var n := NameEnd(p, c + 1);
            if n < |p| && p[n] == '{' then CloseEnd(p, n + 1) < i || CloseEnd(p, n + 1) == |p| else n <= i
  {
    var n := NameEnd(p, c + 1);
    assert i < n ==> c == i;
    assert c == i ==> n == j;
  }

  lemma {:induction false} OpenBraceReportedFrom(p: string, c: nat, i: nat, j: nat)
    requires OpenBrace(p, i, j, false) && c <= i
    ensures !CleanFrom(p, c)
    decreases |p| - c
  {
    if DirectiveAt(p, c) {
      EndsBefore(p, c, i, j);
      var n := NameEnd(p, c + 1);
      if n < |p| && p[n] == '{' {
        var m := CloseEnd(p, n + 1);
        if m < |p| { OpenBraceReportedFrom(p, m + 1, i, j); }
      } else {
        OpenBraceReportedFrom(p, n, i, j);
      }
    } else {
      OpenBraceReportedFrom(p, c + 1, i, j);
    }
  }

  /** An open brace behind a letters-only name is always reported. */
  lemma OpenBraceIsReported(p: string, i: nat, j: nat)
    requires OpenBrace(p, i, j, false)
    ensures !AllClosed(Scan(p, ""))
  {
    CleanIsAllClosed(p);
    OpenBraceReportedFrom(p, 0, i, j);
  }

  lemma {:induction false} TrailingFrom(p: string, c: nat, literal: string)
    requires c < |p| && p[|p| - 1] == '%' && AllClosed(Scan(p[c..], literal))
    ensures Dir("", "", false) in Scan(p[c..], literal)
    decreases |p| - c
  {
    if DirectiveAt(p, c) {
      ErrorAt(p, c, literal);
      ScanDirectiveAt(p, c, literal);
      var n, m := ReadIs(p, c);
      var d := ReadDirective(p[c + 1..]);
      ClosedConcat(Flush(literal), d.token, Scan(d.rest, ""));
      if c + 1 < |p| { TrailingFrom(p, if n < |p| && p[n] == '{' then m + 1 else n, ""); }
    } else {
      ScanCharAt(p, c, literal);
      TrailingFrom(p, c + 1, literal + [p[c]]);
    }
  }

  /** A pattern that ends in a percent sign, `%%` included, cannot scan clean:
      the last sign opens a directive without a name. */
  lemma TrailingPercent(p: string)
    requires EndsWithPercent(p) && AllClosed(Scan(p, ""))
    ensures Dir("", "", false) in Scan(p, "")
  {
    assert p[0..] == p;
    TrailingFrom(p, 0, "");
  }

  // ---------- The formatter object ----------

  /** A printable item: fixed text, or a registered item with its format. */
  datatype Item = Text(text: string) | Formatted(name: string, fmt: string)

  /** A token as the source stores it: text, format, and 1 for a directive. */
  function Entry(t: Token): (string, string, int) {
    match t
    case Lit(text) => (text, "", 0)
    case Dir(name, fmt, _) => (name, fmt, 1)
    case Bad => ("<<pattern_error>>", "", 0)
  }

  function Entries(ts: seq<Token>): (es: seq<(string, string, int)>)
    ensures |es| == |ts| && forall i :: 0 <= i < |ts| ==> es[i] == Entry(ts[i])
  {
    seq(|ts|, i requires 0 <= i < |ts| => Entry(ts[i]))
  }

  function ItemOf(t: Token, registered: set<string>): Item {
    match t
    case Lit(text) => Text(text)
    case Dir(name, fmt, _) =>
      if name in registered then Formatted(name, fmt) else Text("<<error_format %" + name + ">>")
    case Bad => Text("<<pattern_error>>")
  }

  /** What the inner loop has to have established when it is left. */
  ghost predicate ReadDone(p: string, i: nat, n: nat, str: string, fmt: string, status: int)
    requires i < |p|
  {
    match ReadDirective(p[i + 1..])
    case Closed(token, rest) =>
      status == 0 && i < n <= |p| && str == token.name && fmt == token.fmt && rest == p[n..]
    case Unclosed => status == 1 && fmt == ""
  }

  lemma UnbracedDone(p: string, i: nat, n: nat)
    requires i < n <= |p| && NamesIn(p, i + 1, n)
    requires n < |p| ==> !IsName(p[n]) && p[n] != '{'
    ensures ReadDone(p, i, n, p[i + 1..n], "", 0)
  {
    BareRead(p, i, n);
  }

  lemma BracedDone(p: string, i: nat, begin: nat, n: nat)
    requires i < begin < n <= |p| && NamesIn(p, i + 1, begin) && p[begin] == '{'
    requires NoCloseIn(p, begin + 1, n) && (n < |p| ==> p[n] == '}')
    ensures n < |p| ==> ReadDone(p, i, n + 1, p[i + 1..begin], p[begin + 1..n], 0)
    ensures n == |p| ==> forall str :: ReadDone(p, i, n, str, "", 1)
  {
    BraceRead(p, i, begin, n);
  }

  /** The inner loop of the scanner: reads the directive whose percent sign
      stands at `i`. A status of 1 is a brace that is still open at the end. */
  method ReadAt(p: string, i: nat) returns (n: nat, str: string, fmt: string, status: int)
    requires i < |p|
    ensures ReadDone(p, i, n, str, fmt, status)
  {
    n, str, fmt, status := i + 1, "", "", 0;
    var begin := i;
    while n < |p|
      invariant i + 1 <= n <= |p| && fmt == "" && (status == 0 || status == 1)
      invariant status == 0 ==> NamesIn(p, i + 1, n)
      invariant status == 0 ==> str == if n == |p| then p[i + 1..] else ""
      invariant status == 1 ==> i < begin < n && p[begin] == '{' && NamesIn(p, i + 1, begin)
      invariant status == 1 ==> NoCloseIn(p, begin + 1, n)
      invariant status == 1 && n < |p| ==> str == p[i + 1..begin]
    {
      if status == 0 && !IsAlpha(p[n]) && p[n] != '{' && p[n] != '}' {
        str := p[i + 1..n];
        UnbracedDone(p, i, n);
        return;
      }
      if status == 0 {
        if p[n] == '{' {
          str := p[i + 1..n];
          status, begin := 1, n;
          n := n + 1;
          continue;
        }
      } else if status == 1 {
        if p[n] == '}' {
          fmt := p[begin + 1..n];
          status := 0;
          BracedDone(p, i, begin, n);
          n := n + 1;
          return;
        }
      }
      n := n + 1;
      if n == |p| {
        if str == "" {
          str := p[i + 1..];
        }
      }
    }
    if status == 0 {
      UnbracedDone(p, i, n);
    } else {
      BracedDone(p, i, begin, n);
    }
  }

  function Items(ts: seq<Token>, registered: set<string>): (items: seq<Item>)
    ensures |items| == |ts| && forall i :: 0 <= i < |ts| ==> items[i] == ItemOf(ts[i], registered)
  {
    seq(|ts|, i requires 0 <= i < |ts| => ItemOf(ts[i], registered))
  }

  /** No brace is left open and every directive names a registered item. */
  predicate Sound(ts: seq<Token>, registered: set<string>) {
    AllClosed(ts) && forall t :: t in ts && t.Dir? ==> t.name in registered
  }

  // ---------- Writing items back ----------

  /** A formatted item is written as its directive, with braces where that had some. */
  function WriteItem(item: Item, braced: bool): string {
    match item
    case Text(text) => text
    case Formatted(name, fmt) => "%" + name + (if braced then "{" + fmt + "}" else "")
  }

  function WriteItems(items: seq<Item>, braces: seq<bool>): string
    requires |items| == |braces|
  {
    if items == [] then "" else WriteItem(items[0], braces[0]) + WriteItems(items[1..], braces[1..])
  }

  function Braces(ts: seq<Token>): (braces: seq<bool>)
    ensures |braces| == |ts| && forall i :: 0 <= i < |ts| ==> braces[i] == (ts[i].Dir? && ts[i].braced)
  {
    seq(|ts|, i requires 0 <= i < |ts| => ts[i].Dir? && ts[i].braced)
  }

  /** The item that stands for one piece of the pattern: literal text as it is, a
      directive by name and format, and fixed texts for a name that is not registered
      and for a brace that is left open. */
  predicate StandsFor(item: Item, t: Token, registered: set<string>) {
    && (t.Lit? ==> item == Text(t.text))
    && (t.Dir? && t.name in registered ==> item.Formatted? && item.name == t.name && item.fmt == t.fmt)
    && (t.Dir? && t.name !in registered ==> item.Text? && item.text == "<<error_format %" + t.name + ">>")
    && (t.Bad? ==> item.Text? && item.text == "<<pattern_error>>")
  }

  /** The items stand for the pieces of the pattern, in order; and if it scans clean
      and every name is registered, writing them back gives the pattern. */
  ghost predicate BuiltFrom(items: seq<Item>, p: string, registered: set<string>) {
    var ts := Scan(p, "");
    && |items| == |ts|
    && (forall i :: 0 <= i < |ts| ==> StandsFor(items[i], ts[i], registered))
    && (Sound(ts, registered) ==> WriteItems(items, Braces(ts)) == p)
  }

  lemma WritesOne(item: Item, t: Token, registered: set<string>)
    requires StandsFor(item, t, registered) && !t.Bad? && (t.Dir? ==> t.name in registered)
    ensures WriteItem(item, t.Dir? && t.braced) == PrintToken(t)
  {
  }

  lemma SoundTail(ts: seq<Token>, registered: set<string>)
    requires ts != [] && Sound(ts, registered)
    ensures Sound(ts[1..], registered) && !ts[0].Bad? && (ts[0].Dir? ==> ts[0].name in registered)
    ensures Braces(ts)[1..] == Braces(ts[1..])
  {
    assert ts[0] in ts && forall t :: t in ts[1..] ==> t in ts;
  }

  lemma {:induction false} WritesPrint(items: seq<Item>, ts: seq<Token>, registered: set<string>)
    requires |items| == |ts| && Sound(ts, registered)
    requires forall i :: 0 <= i < |ts| ==> StandsFor(items[i], ts[i], registered)
    ensures WriteItems(items, Braces(ts)) == Print(ts)
    decreases |ts|
  {
    if ts != [] {
      SoundTail(ts, registered);
      WritesOne(items[0], ts[0], registered);
      WritesPrint(items[1..], ts[1..], registered);
    }
  }

  lemma ItemsBuilt(p: string, registered: set<string>)
    ensures BuiltFrom(Items(Scan(p, ""), registered), p, registered)
  {
    var ts := Scan(p, "");
    if Sound(ts, registered) {
      WritesPrint(Items(ts, registered), ts, registered);
      Lossless(p);
    }
  }

  /** Where the scanning loop stands: `done` are the tokens behind the entries
      collected so far, and scanning on from `i` completes them. */
  ghost predicate Scanning(p: string, i: nat, nstr: string, vec: seq<(string, string, int)>, open: bool,
                           done: seq<Token>)
  {
    && i <= |p|
    && vec == Entries(done)
    && (open <==> !AllClosed(done))
    && done + Scan(p[i..], nstr) == Scan(p, "")
  }

  lemma PushTokens(done: seq<Token>, more: seq<Token>, rest: seq<Token>)
    ensures done + (more + rest) == (done + more) + rest
    ensures Entries(done + more) == Entries(done) + Entries(more)
    ensures AllClosed(done + more) <==> AllClosed(done) && AllClosed(more)
  {
  }

  lemma StepChar(p: string, i: nat, nstr: string, vec: seq<(string, string, int)>, open: bool, done: seq<Token>)
    requires Scanning(p, i, nstr, vec, open, done) && i < |p|
    requires p[i] == '%' ==> i + 1 < |p| && p[i + 1] == '%'
    ensures Scanning(p, i + 1, nstr + [p[i]], vec, open, done)
  {
    assert p[i..][1..] == p[i + 1..];
  }

  /** The loop's variables: position, literal so far, entries, and the error
      flag. */
  datatype Scanner = Scanner(i: nat, nstr: string, vec: seq<(string, string, int)>, open: bool)

  function WithLiteral(vec: seq<(string, string, int)>, nstr: string): seq<(string, string, int)> {
    if nstr == "" then vec else vec + [(nstr, "", 0)]
  }

  /** After a directive was read, or a brace found open; then the loop resumes
      right behind the percent sign. */
  function AfterRead(s: Scanner, n: nat, str: string, fmt: string, status: int): Scanner {
    if status == 0 then Scanner(n, "", WithLiteral(s.vec, s.nstr) + [(str, fmt, 1)], s.open)
    else Scanner(s.i + 1, s.nstr, s.vec + [("<<pattern_error>>", fmt, 0)], true)
  }

  lemma StepRead(p: string, s: Scanner, done: seq<Token>, n: nat, str: string, fmt: string, status: int)
    returns (more: seq<Token>)
    requires Scanning(p, s.i, s.nstr, s.vec, s.open, done) && s.i < |p|
    requires p[s.i] == '%' && (s.i + 1 < |p| ==> p[s.i + 1] != '%')
    requires ReadDone(p, s.i, n, str, fmt, status)
    ensures var s' := AfterRead(s, n, str, fmt, status);
            s.i < s'.i && Scanning(p, s'.i, s'.nstr, s'.vec, s'.open, done + more)
  {
    assert p[s.i..][1..] == p[s.i + 1..];
    match ReadDirective(p[s.i + 1..])
    case Closed(token, rest) =>
      more := Flush(s.nstr) + [token];
      PushTokens(done, more, Scan(rest, ""));
      assert Entries(more) == (if s.nstr == "" then [] else [(s.nstr, "", 0)]) + [(str, fmt, 1)];
    case Unclosed =>
      more := [Bad];
      PushTokens(done, more, Scan(p[s.i + 1..], s.nstr));
  }

  lemma Scanned(p: string, nstr: string, vec: seq<(string, string, int)>, open: bool, done: seq<Token>)
    requires Scanning(p, |p|, nstr, vec, open, done)
    ensures WithLiteral(vec, nstr) == Entries(Scan(p, ""))
    ensures open <==> !AllClosed(Scan(p, ""))
  {
    PushTokens(done, Flush(nstr), []);
  }

  lemma ScanningStarts(p: string)
    ensures Scanning(p, 0, "", [], false, [])
  {
    assert p[0..] == p;
  }

  /** Stores what was read. */
  method PushRead(s: Scanner, n: nat, str: string, fmt: string, status: int) returns (s': Scanner)
    requires (status == 0 && n > 0) || status == 1
    ensures s' == AfterRead(s, n, str, fmt, status)
  {
    var i, nstr, vec, open := s.i, s.nstr, s.vec, s.open;
    if status == 0 {
      if nstr != "" {
        vec := vec + [(nstr, "", 0)];
        nstr := "";
      }
      vec := vec + [(str, fmt, 1)];
      i := n - 1;
    } else if status == 1 {
      open := true;
      vec := vec + [("<<pattern_error>>", fmt, 0)];
    }
    i := i + 1;
    s' := Scanner(i, nstr, vec, open);
  }

  /** The turn of the loop that meets a directive. */
  method TakeDirective(p: string, s: Scanner, ghost done: seq<Token>) returns (s': Scanner, ghost done': seq<Token>)
    requires Scanning(p, s.i, s.nstr, s.vec, s.open, done) && s.i < |p|
    requires p[s.i] == '%' && (s.i + 1 < |p| ==> p[s.i + 1] != '%')
    ensures s.i < s'.i && Scanning(p, s'.i, s'.nstr, s'.vec, s'.open, done')
  {
    var n, str, fmt, status := ReadAt(p, s.i);
    ghost var more := StepRead(p, s, done, n, str, fmt, status);
    s' := PushRead(s, n, str, fmt, status);
    done' := done + more;
  }

  /** The scanning loop of `init`: the collected entries, and whether some brace
      was left open. */
  method ScanPattern(p: string) returns (vec: seq<(string, string, int)>, open: bool)
    ensures vec == Entries(Scan(p, ""))
    ensures open <==> !AllClosed(Scan(p, ""))
  {
    vec, open := [], false;
    var nstr := "";
    ghost var done: seq<Token> := [];
    ScanningStarts(p);
    var i := 0;
    while i < |p|
      invariant Scanning(p, i, nstr, vec, open, done)
    {
      if p[i] != '%' || (i + 1 < |p| && p[i + 1] == '%') {
        StepChar(p, i, nstr, vec, open, done);
        nstr := nstr + [p[i]];
        i := i + 1;
        continue;
      }
      var s;
      s, done := TakeDirective(p, Scanner(i, nstr, vec, open), done);
      i, nstr, vec, open := s.i, s.nstr, s.vec, s.open;
    }
    Scanned(p, nstr, vec, open, done);
    if nstr != "" {
      vec := vec + [(nstr, "", 0)];
    }
  }

  class LogFormatter {
    const pattern: string
    var items: seq<Item>
    var error: bool

    constructor (pattern: string, registered: set<string>)
      ensures this.pattern == pattern
      ensures items == Items(Scan(pattern, ""), registered) && BuiltFrom(items, pattern, registered)
      ensures error <==> !Sound(Scan(pattern, ""), registered)
    {
      this.pattern := pattern;
      items, error := [], false;
      new;
      Init(registered);
    }

    /** `LogFormatter::init`: one item per token, in order, and the error flag
        raised exactly for an open brace or an unknown name. */
    method Init(registered: set<string>)
      modifies this
      ensures items == old(items) + Items(Scan(pattern, ""), registered)
      ensures BuiltFrom(items[|old(items)|..], pattern, registered)
      ensures error <==> old(error) || !Sound(Scan(pattern, ""), registered)
    {
      var vec, open := ScanPattern(pattern);
      if open {
        error := true;
      }
      ghost var done := Scan(pattern, "");

      var k := 0;
      while k < |vec|
        invariant 0 <= k <= |vec|
        invariant items == old(items) + Items(done[..k], registered)
        invariant error <==> old(error) || open || !Sound(done[..k], registered)
      {
        var (text, fmt, kind) := vec[k];
        if kind == 0 {
          items := items + [Text(text)];
        } else {
          if text in registered {
            items := items + [Formatted(text, fmt)];
          } else {
            items := items + [Text("<<error_format %" + text + ">>")];
            error := true;
          }
        }
        assert done[..k + 1] == done[..k] + [done[k]];
        k := k + 1;
      }
      assert done[..k] == done;
      ItemsBuilt(pattern, registered);
      assert items[|old(items)|..] == Items(done, registered);
    }
  }
}
