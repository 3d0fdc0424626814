/** The string operations of the skills parser: `split(',')` and `trim()`. */
module JsString {
  import opened JsArray

  /** `s.split(sep)` for a one-character separator: the pieces between
      separators, including empty ones; an empty string gives `[""]`. */
  function Split(s: string, sep: char): (r: seq<string>)
    ensures |r| >= 1
    decreases |s|
  {
    var k := IndexOf(s, sep);
    if k < 0 then [s] else [s[..k]] + Split(s[k + 1..], sep)
  }

  /** `parts.join(sep)`, the inverse of `Split`. */
  function Join(parts: seq<string>, sep: char): string
    requires |parts| >= 1
  {
    if |parts| == 1 then parts[0] else parts[0] + [sep] + Join(parts[1..], sep)
  }

  /** Splitting yields one piece more than there are separators. */
  lemma {:induction false} SplitCount(s: string, sep: char)
    ensures |Split(s, sep)| == multiset(s)[sep] + 1
    decreases |s|
  {
    var k := IndexOf(s, sep);
    if k >= 0 {
      SplitCount(s[k + 1..], sep);
      FirstSeparatorCount(s, sep, k);
    } else {
      assert sep !in multiset(s);
    }
  }

  /** The first separator at `k` leaves the rest of the count to `s[k + 1..]`. */
  lemma FirstSeparatorCount(s: string, sep: char, k: nat)
    requires k < |s| && s[k] == sep && sep !in s[..k]
    ensures multiset(s)[sep] == 1 + multiset(s[k + 1..])[sep]
  {
    var head, rest := s[..k], s[k + 1..];
    assert s == head + ([sep] + rest);
    assert multiset(s) == multiset(head) + multiset([sep] + rest);
    assert sep !in multiset(head);
  }

  /** No piece contains the separator. */
  lemma {:induction false} SplitPiecesLackSeparator(s: string, sep: char)
    ensures forall i :: 0 <= i < |Split(s, sep)| ==> sep !in Split(s, sep)[i]
    decreases |s|
  {
    var k := IndexOf(s, sep);
    if k >= 0 {
      SplitPiecesLackSeparator(s[k + 1..], sep);
    }
  }

  /** Joining the pieces with the separator gives back the string. */
  lemma {:induction false} JoinSplit(s: string, sep: char)
    ensures Join(Split(s, sep), sep) == s
    decreases |s|
  {
    var k := IndexOf(s, sep);
    if k >= 0 {
      var rest := s[k + 1..];
      var parts := Split(s, sep);
      assert parts == [s[..k]] + Split(rest, sep);
      JoinSplit(rest, sep);
      assert parts[1..] == Split(rest, sep);
      calc {
        Join(parts, sep);
        parts[0] + [sep] + Join(parts[1..], sep);
        s[..k] + [sep] + rest;
        s;
      }
    }
  }

  /** The characters `String.prototype.trim` removes: WhiteSpace and
      LineTerminator of the ECMAScript grammar. */
  predicate IsWhiteSpace(c: char) {
    c == ' ' || c == '\t' || c == '\n' || c == '\r' || c == '\U{B}' || c == '\U{C}'
    || c == '\U{A0}' || c == '\U{1680}' || ('\U{2000}' <= c <= '\U{200A}')
    || c == '\U{2028}' || c == '\U{2029}' || c == '\U{202F}' || c == '\U{205F}'
    || c == '\U{3000}' || c == '\U{FEFF}'
  }

  /** Drops the leading white space. */
  function TrimStart(s: string): (r: string)
    ensures |r| <= |s| && r == s[|s| - |r|..]
    ensures forall i :: 0 <= i < |s| - |r| ==> IsWhiteSpace(s[i])
    ensures r != [] ==> !IsWhiteSpace(r[0])
    decreases |s|
  {
    if s != [] && IsWhiteSpace(s[0]) then TrimStart(s[1..]) else s
  }

  /** Drops the trailing white space. */
  function TrimEnd(s: string): (r: string)
    ensures |r| <= |s| && r == s[..|r|]
    ensures forall i :: |r| <= i < |s| ==> IsWhiteSpace(s[i])
    ensures r != [] ==> !IsWhiteSpace(r[|r| - 1])
    decreases |s|
  {
    if s != [] && IsWhiteSpace(s[|s| - 1]) then TrimEnd(s[..|s| - 1]) else s
  }

  /** `s.trim()`. */
  function Trim(s: string): (r: string)
    ensures r != [] ==> !IsWhiteSpace(r[0]) && !IsWhiteSpace(r[|r| - 1])
  {
    TrimEnd(TrimStart(s))
  }

  /** Every character of `s` before `i` and from `j` on is white space. */
  predicate OnlyWhiteSpaceOutside(s: string, i: nat, j: nat)
    requires i <= j <= |s|
  {
    && (forall k :: 0 <= k < i ==> IsWhiteSpace(s[k]))
    && (forall k :: j <= k < |s| ==> IsWhiteSpace(s[k]))
  }

  /** Where the trimmed stretch starts in `s`. */
  function TrimFrom(s: string): (i: nat)
    ensures i <= |s|
  {
    |s| - |TrimStart(s)|
  }

  /** The trimmed string is the slice of `s` from `TrimFrom(s)`. */
  lemma TrimIsSlice(s: string)
    ensures TrimFrom(s) + |Trim(s)| <= |s|
    ensures Trim(s) == s[TrimFrom(s)..TrimFrom(s) + |Trim(s)|]
  {
    var t := TrimStart(s);
    var i := TrimFrom(s);
    calc {
      Trim(s);
      t[..|Trim(s)|];
      s[i..][..|Trim(s)|];
      s[i..i + |Trim(s)|];
    }
  }

  /** Only white space lies around the trimmed slice. */
  lemma TrimDropsWhiteSpace(s: string)
    requires TrimFrom(s) + |Trim(s)| <= |s|
    ensures OnlyWhiteSpaceOutside(s, TrimFrom(s), TrimFrom(s) + |Trim(s)|)
  {
    var t := TrimStart(s);
    var i := TrimFrom(s);
    forall k | i + |Trim(s)| <= k < |s| ensures IsWhiteSpace(s[k]) {
      assert s[k] == t[k - i];
    }
  }

  /** `trim` keeps a stretch of the string and drops only white space around it. */
  lemma TrimKeepsMiddle(s: string)
    ensures exists i, j :: 0 <= i <= j <= |s| && Trim(s) == s[i..j] && OnlyWhiteSpaceOutside(s, i, j)
  {
    TrimIsSlice(s);
    TrimDropsWhiteSpace(s);
  }

  /** Trimming twice is trimming once. */
  lemma TrimIdempotent(s: string)
    ensures Trim(Trim(s)) == Trim(s)
  {
    var t := Trim(s);
    assert TrimStart(t) == t;
    assert TrimEnd(t) == t;
  }

  /** `trim` never introduces a character that was not in the string. */
  lemma TrimAddsNothing(s: string, c: char)
    requires c !in s
    ensures c !in Trim(s)
  {
    TrimIsSlice(s);
    var i := TrimFrom(s);
    var t := Trim(s);
    forall k | 0 <= k < |t| ensures t[k] != c {
      assert t[k] == s[i + k];
    }
  }

  /** `parts.map((part) => part.trim())`. */
  function TrimAll(parts: seq<string>): (r: seq<string>)
    ensures |r| == |parts|
    ensures forall i :: 0 <= i < |r| ==> r[i] == Trim(parts[i])
  {
    seq(|parts|, i requires 0 <= i < |parts| => Trim(parts[i]))
  }

  /** `skills.split(',').map((skill) => skill.trim())`. */
  function ParseSkills(skills: string): (r: seq<string>)
    ensures |r| == multiset(skills)[','] + 1
    ensures |r| == |Split(skills, ',')|
    ensures forall i :: 0 <= i < |r| ==> r[i] == Trim(Split(skills, ',')[i])
    ensures forall i :: 0 <= i < |r| ==> ',' !in r[i]
    ensures forall i :: 0 <= i < |r| && r[i] != [] ==>
      !IsWhiteSpace(r[i][0]) && !IsWhiteSpace(r[i][|r[i]| - 1])
  {
    var parts := Split(skills, ',');
    SplitCount(skills, ',');
    SplitPiecesLackSeparator(skills, ',');
    var r := TrimAll(parts);
    assert forall i :: 0 <= i < |r| ==> ',' !in r[i] by {
      forall i | 0 <= i < |r| ensures ',' !in r[i] {
        TrimAddsNothing(parts[i], ',');
      }
    }
    r
  }
}
