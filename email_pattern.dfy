/**
 * The e-mail check `/^[^\s@]+@[^\s@]+\.[^\s@]+$/.test(email)` used by the
 * user controller and by registration. The test is a finite automaton run over
 * the string; the lemmas prove that it accepts exactly the language of the
 * pattern, and what an accepted address therefore looks like.
 */
module EmailPattern {
  import opened JsValues

  /** A character of the class `[^\s@]`. */
  predicate Plain(c: char) {
    c != '@' && !IsWhitespace(c)
  }

  predicate AllPlain(s: string) {
    forall k :: 0 <= k < |s| ==> Plain(s[k])
  }

  /** The language of the pattern, read off it: `a@b.c` with `a`, `b`, `c` nonempty runs of `[^\s@]`. */
  ghost predicate InPattern(s: string) {
    exists a: string, b: string, c: string
      :: a != [] && b != [] && c != [] && AllPlain(a) && AllPlain(b) && AllPlain(c)
         && s == a + "@" + b + "." + c
  }

  /** The same shape by positions: the only `@` sits at `at`, a `.` at `dot` splits what follows it. */
  ghost predicate AtAndDot(s: string, at: int, dot: int) {
    && 0 < at && at + 1 < dot && dot + 1 < |s|
    && s[at] == '@' && s[dot] == '.'
    && forall k :: 0 <= k < |s| && k != at ==> Plain(s[k])
  }

  /** The automaton's states, named by the part of the pattern read so far. */
  datatype State = Start | Local | AfterAt | Domain | DomainDot | Accepting | Dead

  function Step(q: State, c: char): State {
    if IsWhitespace(c) then Dead
    else
      match q
      case Start => if c == '@' then Dead else Local
      case Local => if c == '@' then AfterAt else Local
      case AfterAt => if c == '@' then Dead else Domain
      case Domain => if c == '@' then Dead else if c == '.' then DomainDot else Domain
      case DomainDot => if c == '@' then Dead else Accepting
      case Accepting => if c == '@' then Dead else Accepting
      case Dead => Dead
  }

  /** The state reached after reading `s` from left to right. */
  function Run(s: string): State {
    if s == [] then Start else Step(Run(s[..|s| - 1]), s[|s| - 1])
  }

  /** `emailRegex.test(s)`: the automaton ends in its accepting state, which happens for exactly the pattern's strings. */
  function EmailRegexTest(s: string): (ok: bool)
    ensures ok <==> InPattern(s)
  {
    AcceptingIsPattern(s);
    Run(s) == Accepting
  }

  /** What each state says about the text read; `at` and `dot` are the witnesses. */
  lemma {:induction false} RunSound(p: string) returns (at: int, dot: int)
    ensures Run(p) == Start ==> p == []
    ensures Run(p) == Local ==> p != [] && AllPlain(p)
    ensures Run(p) == AfterAt ==> at == |p| - 1 && at > 0 && p[at] == '@' && AllPlain(p[..at])
    ensures Run(p) in {Domain, DomainDot, Accepting} ==>
              0 < at < |p| - 1 && p[at] == '@' && forall k :: 0 <= k < |p| && k != at ==> Plain(p[k])
    ensures Run(p) == DomainDot ==> at + 2 <= |p| - 1 && p[|p| - 1] == '.'
    ensures Run(p) == Accepting ==> AtAndDot(p, at, dot)
  {
    if p == [] {
      return 0, 0;
    }
    var q, c := p[..|p| - 1], p[|p| - 1];
    var at0, dot0 := RunSound(q);
    assert forall k :: 0 <= k < |q| ==> p[k] == q[k];
    match Run(q)
    case Start =>
      at, dot := 0, 0;
    case Local =>
      at, dot := |q|, 0;
      assert p[..at] == q;
    case AfterAt =>
      at, dot := at0, 0;
      assert forall k :: 0 <= k < at0 ==> q[..at0][k] == p[k];
    case Domain =>
      at, dot := at0, 0;
    case DomainDot =>
      at, dot := at0, |q| - 1;
    case Accepting =>
      at, dot := at0, dot0;
    case Dead =>
      at, dot := 0, 0;
  }

  /** Along a string of the pattern's shape, the automaton passes through the expected states. */
  lemma {:induction false} RunOnPrefix(s: string, at: int, dot: int, n: nat)
    requires AtAndDot(s, at, dot) && n <= |s|
    ensures n == 0 ==> Run(s[..n]) == Start
    ensures 1 <= n <= at ==> Run(s[..n]) == Local
    ensures n == at + 1 ==> Run(s[..n]) == AfterAt
    ensures at + 2 <= n <= dot ==> Run(s[..n]) in {Domain, DomainDot, Accepting}
    ensures n == dot + 1 ==> Run(s[..n]) in {DomainDot, Accepting}
    ensures dot + 2 <= n ==> Run(s[..n]) == Accepting
  {
    if n > 0 {
      RunOnPrefix(s, at, dot, n - 1);
      var p := s[..n];
      assert p[..n - 1] == s[..n - 1];
      assert p[n - 1] == s[n - 1];
    }
  }

  lemma AtAndDotInPattern(s: string, at: int, dot: int)
    requires AtAndDot(s, at, dot)
    ensures InPattern(s)
  {
    var a, b, c := s[..at], s[at + 1..dot], s[dot + 1..];
    assert forall k :: 0 <= k < |a| ==> a[k] == s[k];
    assert forall k :: 0 <= k < |b| ==> b[k] == s[at + 1 + k];
    assert forall k :: 0 <= k < |c| ==> c[k] == s[dot + 1 + k];
    assert s == a + "@" + b + "." + c;
    assert a != [] && b != [] && c != [] && AllPlain(a) && AllPlain(b) && AllPlain(c);
  }

  lemma InPatternAtAndDot(s: string) returns (at: int, dot: int)
    requires InPattern(s)
    ensures AtAndDot(s, at, dot)
  {
    var a: string, b: string, c: string :|
      a != [] && b != [] && c != [] && AllPlain(a) && AllPlain(b) && AllPlain(c)
      && s == a + "@" + b + "." + c;
    at, dot := |a|, |a| + 1 + |b|;
    forall k | 0 <= k < |s| && k != at
      ensures Plain(s[k])
    {
      if k < at {
        assert s[k] == a[k];
      } else if k < dot {
        assert s[k] == b[k - at - 1];
      } else if k > dot {
        assert s[k] == c[k - dot - 1];
      }
    }
  }

  /** The automaton ends in `Accepting` on exactly the strings of the pattern. */
  lemma AcceptingIsPattern(s: string)
    ensures Run(s) == Accepting <==> InPattern(s)
  {
    if Run(s) == Accepting {
      var at, dot := RunSound(s);
      AtAndDotInPattern(s, at, dot);
    }
    if InPattern(s) {
      var at, dot := InPatternAtAndDot(s);
      RunOnPrefix(s, at, dot, |s|);
      assert s[..|s|] == s;
    }
  }

  /** The number of times `c` occurs in `s`. */
  function Occurrences(s: string, c: char): nat {
    if s == [] then 0 else (if s[0] == c then 1 else 0) + Occurrences(s[1..], c)
  }

  lemma {:induction false} OccurrencesSplit(s: string, c: char, i: nat)
    requires i <= |s|
    ensures Occurrences(s, c) == Occurrences(s[..i], c) + Occurrences(s[i..], c)
  {
    if i > 0 {
      OccurrencesSplit(s[1..], c, i - 1);
      assert s[1..][..i - 1] == s[..i][1..];
      assert s[1..][i - 1..] == s[i..];
    }
  }

  lemma {:induction false} NoOccurrences(s: string, c: char)
    requires forall k :: 0 <= k < |s| ==> s[k] != c
    ensures Occurrences(s, c) == 0
  {
    if s != [] {
      NoOccurrences(s[1..], c);
    }
  }

  /**
   * An accepted address has exactly one `@`, no whitespace, a nonempty part
   * before the `@`, and after it a nonempty part, a `.` and a nonempty rest.
   */
  lemma AcceptedEmailShape(s: string) returns (at: int, dot: int)
    requires EmailRegexTest(s)
    ensures 0 < at && at + 1 < dot && dot + 1 < |s| && s[at] == '@' && s[dot] == '.'
    ensures Occurrences(s, '@') == 1
    ensures forall k :: 0 <= k < |s| ==> !IsWhitespace(s[k])
  {
    at, dot := RunSound(s);
    OccurrencesSplit(s, '@', at);
    OccurrencesSplit(s[at..], '@', 1);
    assert s[at..][1..] == s[at + 1..];
    NoOccurrences(s[..at], '@');
    NoOccurrences(s[at + 1..], '@');
    assert s[at..][..1] == ['@'];
  }
}
