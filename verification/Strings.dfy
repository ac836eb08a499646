/** Splitting and trimming of strings. */
module Strings {
  /** Splits at every occurrence of the separator; there is always at least one piece. */
  function Split(s: string, sep: char): (parts: seq<string>)
    ensures parts != []
  {
    if s == "" then [""]
    else
      var rest := Split(s[1..], sep);
      if s[0] == sep then [""] + rest else [[s[0]] + rest[0]] + rest[1..]
  }

  function Joined(parts: seq<string>, sep: char): string
    requires parts != []
  {
    if |parts| == 1 then parts[0] else parts[0] + [sep] + Joined(parts[1..], sep)
  }

  /** One more character ahead of the pieces of a string. */
  lemma JoinedGrows(c: char, rest: seq<string>, sep: char)
    requires rest != []
    ensures Joined([""] + rest, sep) == [sep] + Joined(rest, sep)
    ensures Joined([[c] + rest[0]] + rest[1..], sep) == [c] + Joined(rest, sep)
  {
    assert ([""] + rest)[1..] == rest;
    var more := [[c] + rest[0]] + rest[1..];
    assert more[1..] == rest[1..];
    if |rest| > 1 {
      assert [c] + (rest[0] + [sep] + Joined(rest[1..], sep)) == ([c] + rest[0]) + [sep] + Joined(rest[1..], sep);
    }
  }

  /** Joining the pieces gives the key back, and no piece holds the separator. */
  lemma {:induction false} SplitJoins(s: string, sep: char)
    ensures Joined(Split(s, sep), sep) == s
    ensures forall i :: 0 <= i < |Split(s, sep)| ==> sep !in Split(s, sep)[i]
  {
    if s != "" {
      SplitJoins(s[1..], sep);
      JoinedGrows(s[0], Split(s[1..], sep), sep);
      assert s == [s[0]] + s[1..];
    }
  }

  /** The pieces of a string with one more character ahead of it. */
  function Attached(c: char, rest: seq<string>, sep: char): seq<string>
    requires rest != []
  {
    if c == sep then [""] + rest else [[c] + rest[0]] + rest[1..]
  }

  lemma SplitCons(c: char, s: string, sep: char)
    ensures Split([c] + s, sep) == Attached(c, Split(s, sep), sep)
  {
    assert ([c] + s)[1..] == s;
  }

  lemma AttachedAhead(c: char, rest: seq<string>, more: seq<string>, sep: char)
    requires rest != []
    ensures Attached(c, rest + more, sep) == Attached(c, rest, sep) + more
  {
  }

  /** The pieces of two strings with a separator between them. */
  lemma {:induction false} SplitAppends(a: string, b: string, sep: char)
    ensures Split(a + [sep] + b, sep) == Split(a, sep) + Split(b, sep)
  {
    if a == "" {
      assert a + [sep] + b == [sep] + b;
      SplitCons(sep, b, sep);
    } else {
      SplitAppends(a[1..], b, sep);
      SplitCons(a[0], a[1..], sep);
      SplitCons(a[0], a[1..] + [sep] + b, sep);
      AttachedAhead(a[0], Split(a[1..], sep), Split(b, sep), sep);
      assert [a[0]] + a[1..] == a && [a[0]] + (a[1..] + [sep] + b) == a + [sep] + b;
    }
  }

  lemma {:induction false} JoinedAppends(a: seq<string>, b: seq<string>, sep: char)
    requires a != [] && b != []
    ensures Joined(a + b, sep) == Joined(a, sep) + [sep] + Joined(b, sep)
  {
    if |a| == 1 {
      assert (a + b)[1..] == b;
    } else {
      assert (a + b)[1..] == a[1..] + b;
      JoinedAppends(a[1..], b, sep);
      assert a[0] + [sep] + (Joined(a[1..], sep) + [sep] + Joined(b, sep))
          == (a[0] + [sep] + Joined(a[1..], sep)) + [sep] + Joined(b, sep);
    }
  }

  /** The white space a string strip removes. */
  predicate IsSpace(c: char) {
    || '\t' <= c <= '\r'
    || '\U{1C}' <= c <= ' '
    || c in ['\U{85}', '\U{A0}', '\U{1680}', '\U{2028}', '\U{2029}', '\U{202F}', '\U{205F}', '\U{3000}']
    || '\U{2000}' <= c <= '\U{200A}'
  }

  function StripStart(s: string): string {
    if s == "" || !IsSpace(s[0]) then s else StripStart(s[1..])
  }

  function StripEnd(s: string): string {
    if s == "" || !IsSpace(s[|s| - 1]) then s else StripEnd(s[..|s| - 1])
  }

  function Strip(s: string): string {
    StripEnd(StripStart(s))
  }

  lemma {:induction false} StripStartStops(s: string)
    ensures StripStart(s) == "" || !IsSpace(StripStart(s)[0])
    ensures StripStart(s) == "" <==> forall i :: 0 <= i < |s| ==> IsSpace(s[i])
  {
    if s != "" && IsSpace(s[0]) {
      StripStartStops(s[1..]);
      if StripStart(s) == "" {
        forall i | 0 <= i < |s| ensures IsSpace(s[i]) { if i > 0 { assert s[1..][i - 1] == s[i]; } }
      }
    } else if s != "" {
      assert StripStart(s) == s;
    }
  }

  lemma {:induction false} StripEndStops(s: string)
    requires s != "" && !IsSpace(s[0])
    ensures var t := StripEnd(s); t != "" && t[0] == s[0] && !IsSpace(t[|t| - 1])
  {
    if IsSpace(s[|s| - 1]) { StripEndStops(s[..|s| - 1]); }
  }

  /** Stripping twice is stripping once, and only a blank string strips to nothing. */
  lemma StripSettles(s: string)
    ensures Strip(Strip(s)) == Strip(s)
    ensures Strip(s) == "" <==> forall i :: 0 <= i < |s| ==> IsSpace(s[i])
    ensures Strip(s) != "" ==> !IsSpace(Strip(s)[0])
  {
    StripStartStops(s);
    if StripStart(s) != "" {
      StripEndStops(StripStart(s));
      var u := Strip(s);
      assert StripStart(u) == u && StripEnd(u) == u;
    }
  }
}
