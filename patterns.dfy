/** The character classes and the two regular expressions the service checks
    requests against, written out as predicates over strings. */
module Patterns {

  /** Length of a generated short code. */
  const CodeLength: nat := 6

  /** `[a-zA-Z_0-9]` */
  predicate IsWordChar(c: char) {
    ('a' <= c <= 'z') || ('A' <= c <= 'Z') || ('0' <= c <= '9') || c == '_'
  }

  /** `[a-zA-Z0-9_.-]`, the characters allowed after the scheme of a URL. */
  predicate IsHostChar(c: char) {
    IsWordChar(c) || c == '.' || c == '-'
  }

  predicate AllHostChars(s: string) {
    forall i :: 0 <= i < |s| ==> IsHostChar(s[i])
  }

  /** `^http(s){0,1}://[a-zA-Z0-9_.-]+$`: the scheme `http://` or `https://`,
      then one or more host characters, then the end of the text. */
  predicate ValidUrl(u: string) {
    || (|u| > 7 && u[..7] == "http://" && AllHostChars(u[7..]))
    || (|u| > 8 && u[..8] == "https://" && AllHostChars(u[8..]))
  }

  // ---------------------------------------------------------------------------
  // A reference definition of the URL pattern: the deterministic automaton that
  // the regular expression compiles to, run one character at a time.
  //   0 -h-> 1 -t-> 2 -t-> 3 -p-> 4 -s-> 5 ; 4,5 -:-> 6 -/-> 7 -/-> 8 -host-> 9 -host-> 9
  // Every other move goes to the dead state, which never leaves.
  // ---------------------------------------------------------------------------

  const Accept: nat := 9
  const Dead: nat := 10

  function UrlStep(q: nat, c: char): nat {
    if q == 0 && c == 'h' then 1
    else if q == 1 && c == 't' then 2
    else if q == 2 && c == 't' then 3
    else if q == 3 && c == 'p' then 4
    else if q == 4 && c == 's' then 5
    else if (q == 4 || q == 5) && c == ':' then 6
    else if q == 6 && c == '/' then 7
    else if q == 7 && c == '/' then 8
    else if (q == 8 || q == Accept) && IsHostChar(c) then Accept
    else Dead
  }

  function UrlRun(q: nat, s: string): nat
    decreases |s|
  {
    if s == [] then q else UrlRun(UrlStep(q, s[0]), s[1..])
  }

  predicate UrlAutomatonAccepts(u: string) {
    UrlRun(0, u) == Accept
  }

  lemma {:induction false} DeadStaysDead(s: string)
    ensures UrlRun(Dead, s) == Dead
    decreases |s|
  {
    if s != [] {
      DeadStaysDead(s[1..]);
    }
  }

  /** A non-empty text is all host characters exactly when its first
      character is one and the rest are. */
  lemma AllHostCharsCons(s: string)
    requires s != []
    ensures AllHostChars(s) <==> IsHostChar(s[0]) && AllHostChars(s[1..])
  {
    if IsHostChar(s[0]) && AllHostChars(s[1..]) {
      forall i | 0 <= i < |s| ensures IsHostChar(s[i]) {
        if i > 0 { assert s[i] == s[1..][i - 1]; }
      }
    }
  }

  lemma {:induction false} HostRun(s: string)
    ensures UrlRun(Accept, s) == if AllHostChars(s) then Accept else Dead
    decreases |s|
  {
    if s != [] {
      AllHostCharsCons(s);
      if IsHostChar(s[0]) {
        HostRun(s[1..]);
      } else {
        DeadStaysDead(s[1..]);
      }
    }
  }

  /** From state 8 (the scheme has been read) the automaton accepts exactly
      a non-empty run of host characters. */
  lemma AfterScheme(s: string)
    ensures UrlRun(8, s) == Accept <==> s != [] && AllHostChars(s)
  {
    if s != [] {
      AllHostCharsCons(s);
      if IsHostChar(s[0]) {
        HostRun(s[1..]);
      } else {
        DeadStaysDead(s[1..]);
      }
    }
  }

  lemma {:induction false} RunAppend(q: nat, a: string, b: string)
    ensures UrlRun(q, a + b) == UrlRun(UrlRun(q, a), b)
    decreases |a|
  {
    if a == [] {
      assert a + b == b;
    } else {
      assert (a + b)[1..] == a[1..] + b;
      RunAppend(UrlStep(q, a[0]), a[1..], b);
    }
  }

  /** One step of an accepting run that has not yet reached the accepting state. */
  lemma Peel(q: nat, s: string)
    requires q != Accept && UrlRun(q, s) == Accept
    ensures s != [] && UrlStep(q, s[0]) != Dead && UrlRun(UrlStep(q, s[0]), s[1..]) == Accept
  {
    if s != [] && UrlStep(q, s[0]) == Dead {
      DeadStaysDead(s[1..]);
    }
  }

  /** An accepted text starts with one of the two schemes. */
  lemma AcceptedHasScheme(u: string)
    requires UrlAutomatonAccepts(u)
    ensures || (|u| >= 7 && u[..7] == "http://")
            || (|u| >= 8 && u[..8] == "https://")
  {
    Peel(0, u);
    var t1 := u[1..];
    Peel(1, t1);
    var t2 := t1[1..];
    Peel(2, t2);
    var t3 := t2[1..];
    Peel(3, t3);
    var t4 := t3[1..];
    Peel(4, t4);
    var t5 := t4[1..];
    if t4[0] == 's' {
      Peel(5, t5);
      var t6 := t5[1..];
      Peel(6, t6);
      var t7 := t6[1..];
      Peel(7, t7);
      assert u[..8] == "https://" by {
        assert u[0] == 'h' && u[1] == t1[0] && u[2] == t2[0] && u[3] == t3[0];
        assert u[4] == t4[0] && u[5] == t5[0] && u[6] == t6[0] && u[7] == t7[0];
      }
    } else {
      Peel(6, t5);
      var t6 := t5[1..];
      Peel(7, t6);
      assert u[..7] == "http://" by {
        assert u[0] == 'h' && u[1] == t1[0] && u[2] == t2[0] && u[3] == t3[0];
        assert u[4] == t4[0] && u[5] == t5[0] && u[6] == t6[0];
      }
    }
  }

  /** Reading a scheme takes the automaton from its start to state 8. */
  lemma SchemeRun(u: string, n: nat)
    requires (n == 7 && |u| >= 7 && u[..7] == "http://") || (n == 8 && |u| >= 8 && u[..8] == "https://")
    ensures UrlRun(0, u) == UrlRun(8, u[n..])
  {
    assert u == u[..n] + u[n..];
    RunAppend(0, u[..n], u[n..]);
    if n == 7 {
      HttpRun();
    } else {
      HttpsRun();
    }
  }

  lemma HttpRun()
    ensures UrlRun(0, "http://") == 8
  {
  }

  lemma HttpsRun()
    ensures UrlRun(0, "https://") == 8
  {
  }

  /** The hand-written URL predicate accepts exactly what the automaton of the
      pattern accepts. */
  lemma UrlAutomatonAgrees(u: string)
    ensures UrlAutomatonAccepts(u) <==> ValidUrl(u)
  {
    if UrlAutomatonAccepts(u) {
      AcceptedHasScheme(u);
      if |u| >= 7 && u[..7] == "http://" {
        SchemeRun(u, 7);
        AfterScheme(u[7..]);
      } else {
        SchemeRun(u, 8);
        AfterScheme(u[8..]);
      }
    }
    if ValidUrl(u) {
      if |u| > 7 && u[..7] == "http://" && AllHostChars(u[7..]) {
        SchemeRun(u, 7);
        AfterScheme(u[7..]);
      } else {
        SchemeRun(u, 8);
        AfterScheme(u[8..]);
      }
    }
  }

  /** Everything after the scheme of an accepted URL is a host character, so a
      path `/`, a query `?`, a port `:` or a space there makes a URL invalid. */
  lemma ValidUrlHostPart(u: string)
    requires ValidUrl(u)
    ensures var start := if u[4] == 's' then 8 else 7;
            && start < |u|
            && forall i :: start <= i < |u| ==>
                 IsHostChar(u[i]) && u[i] != '/' && u[i] != '?' && u[i] != ':' && u[i] != ' '
  {
    if |u| > 7 && u[..7] == "http://" && AllHostChars(u[7..]) {
      assert u[4] == ':';
      forall i | 7 <= i < |u| ensures IsHostChar(u[i]) {
        assert u[i] == u[7..][i - 7];
      }
    } else {
      assert u[4] == 's';
      forall i | 8 <= i < |u| ensures IsHostChar(u[i]) {
        assert u[i] == u[8..][i - 8];
      }
    }
  }

  // ---------------------------------------------------------------------------
  // The fast reject of request paths, applied to the path without its leading
  // slash.
  // ---------------------------------------------------------------------------

  /** `^[a-zA-Z_0-9]{7,}`: the text begins with at least CodeLength + 1 word
      characters. The pattern is anchored at the start only, so anything may
      follow them. */
  predicate StartsWithLongCode(rest: string) {
    |rest| >= CodeLength + 1 && forall i :: 0 <= i < CodeLength + 1 ==> IsWordChar(rest[i])
  }

  /** A path remainder answered "not found" without any store lookup. */
  predicate RejectedPath(rest: string) {
    StartsWithLongCode(rest) || '/' in rest
  }

  /** The length of the longest run of word characters at the start of `s`. */
  function WordPrefixLength(s: string): (k: nat)
    ensures k <= |s|
    ensures forall i :: 0 <= i < k ==> IsWordChar(s[i])
    ensures k < |s| ==> !IsWordChar(s[k])
    decreases |s|
  {
    if s == [] || !IsWordChar(s[0]) then 0 else 1 + WordPrefixLength(s[1..])
  }

  /** The code pattern matches exactly when the leading run of word characters
      is longer than a code. */
  lemma LongCodeIffWordPrefix(rest: string)
    ensures StartsWithLongCode(rest) <==> WordPrefixLength(rest) > CodeLength
  {
  }

  /** A path remainder that passes the fast reject has no slash and at most
      CodeLength leading word characters. */
  lemma AcceptedPathShape(rest: string)
    requires !RejectedPath(rest)
    ensures WordPrefixLength(rest) <= CodeLength
    ensures forall i :: 0 <= i < |rest| ==> rest[i] != '/'
  {
  }
}
