/**
  The two cell codings the loader applies: the case-sensitive "Yes"/"No"
  answer of a flag column, and the issues text split on ", ".
 */
module Coding {
  import opened Outcomes
  import opened Records

  /**
    `Series.map({'Yes': True, 'No': False})` on one cell: exactly "Yes" and
    "No" are recognised; every other value, "yes" and "" included, becomes
    missing.
   */
  function YesNo(c: Cell): (b: Option<bool>)
    ensures b == Some(true) <==> c == Text("Yes")
    ensures b == Some(false) <==> c == Text("No")
    ensures b == None <==> c != Text("Yes") && c != Text("No")
  {
    if c == Text("Yes") then Some(true)
    else if c == Text("No") then Some(false)
    else None
  }

  /** The issue delimiter ", " starts at index i of s. */
  predicate DelimiterAt(s: string, i: int) {
    0 <= i && i + 1 < |s| && s[i] == ',' && s[i + 1] == ' '
  }

  /** s holds no occurrence of the delimiter. */
  ghost predicate DelimiterFree(s: string) {
    forall i :: !DelimiterAt(s, i)
  }

  /**
    Python's `s.split(", ")`: scanning left to right, every occurrence of the
    delimiter ends one part. The empty string gives one empty part.
   */
  function Split(s: string): (parts: seq<string>)
    ensures |parts| >= 1
    decreases |s|
  {
    if |s| < 2 then [s]
    else if DelimiterAt(s, 0) then [""] + Split(s[2..])
    else
      var rest := Split(s[1..]);
      [[s[0]] + rest[0]] + rest[1..]
  }

  /** Python's `", ".join(parts)`. */
  function Join(parts: seq<string>): string {
    if |parts| == 0 then ""
    else if |parts| == 1 then parts[0]
    else parts[0] + ", " + Join(parts[1..])
  }

  /** `Series.str.split(", ")` on one cell: a text cell is split, any other value gives a missing list. */
  function SplitIssues(c: Cell): (r: Option<seq<string>>)
    ensures r.Some? <==> c.Text?
    ensures r.Some? ==> |r.value| >= 1 && Join(r.value) == c.s
  {
    match c
    case Text(s) => JoinSplit(s); Some(Split(s))
    case Number(_) => None
  }

  /** The first part of a split is a prefix of the split text. */
  lemma {:induction false} SplitHeadIsPrefix(s: string)
    ensures Split(s)[0] <= s
    decreases |s|
  {
    if |s| >= 2 && !DelimiterAt(s, 0) {
      SplitHeadIsPrefix(s[1..]);
    }
  }

  /** Joining the parts of a split gives back the original text. */
  lemma {:induction false} JoinSplit(s: string)
    ensures Join(Split(s)) == s
    decreases |s|
  {
    if |s| < 2 {
    } else if DelimiterAt(s, 0) {
      JoinSplit(s[2..]);
      assert s == ", " + s[2..];
    } else {
      var rest := Split(s[1..]);
      JoinSplit(s[1..]);
      var head := [s[0]] + rest[0];
      assert Split(s) == [head] + rest[1..];
      JoinCons(s[0], rest);
    }
  }

  /** Gluing a character to the first part glues it to the joined text. */
  lemma {:induction false} JoinCons(c: char, rest: seq<string>)
    requires |rest| >= 1
    ensures Join([[c] + rest[0]] + rest[1..]) == [c] + Join(rest)
  {
    var parts := [[c] + rest[0]] + rest[1..];
    if |rest| > 1 {
      assert parts[1..] == rest[1..];
      assert Join(parts) == [c] + rest[0] + ", " + Join(rest[1..]);
      assert [c] + rest[0] + ", " + Join(rest[1..]) == [c] + (rest[0] + ", " + Join(rest[1..]));
    }
  }

  /** No part of a split holds the delimiter. */
  lemma {:induction false} SplitPartsDelimiterFree(s: string)
    ensures forall k :: 0 <= k < |Split(s)| ==> DelimiterFree(Split(s)[k])
    decreases |s|
  {
    if |s| < 2 {
      assert Split(s) == [s];
      assert forall i :: !DelimiterAt(s, i);
    } else if DelimiterAt(s, 0) {
      SplitPartsDelimiterFree(s[2..]);
      assert forall i :: !DelimiterAt("", i);
    } else {
      var rest := Split(s[1..]);
      SplitPartsDelimiterFree(s[1..]);
      SplitHeadIsPrefix(s[1..]);
      var head := [s[0]] + rest[0];
      forall i
        ensures !DelimiterAt(head, i)
      {
        if i == 0 && |rest[0]| >= 1 {
          assert head[1] == rest[0][0] == s[1];
        } else if i >= 1 {
          assert !DelimiterAt(rest[0], i - 1);
        }
      }
      assert Split(s) == [head] + rest[1..];
    }
  }

  /** Text without the delimiter splits into itself alone. */
  lemma {:induction false} SplitDelimiterFree(p: string)
    requires DelimiterFree(p)
    ensures Split(p) == [p]
    decreases |p|
  {
    if |p| >= 2 {
      assert !DelimiterAt(p, 0);
      assert forall i :: !DelimiterAt(p[1..], i) by {
        forall i ensures !DelimiterAt(p[1..], i) {
          assert !DelimiterAt(p, i + 1);
        }
      }
      SplitDelimiterFree(p[1..]);
      assert [p[0]] + p[1..] == p;
    }
  }

  /** A delimiter-free part followed by the delimiter splits off as exactly that part. */
  lemma {:induction false} SplitAfterPart(p: string, t: string)
    requires DelimiterFree(p)
    ensures Split(p + ", " + t) == [p] + Split(t)
    decreases |p|
  {
    var s := p + ", " + t;
    if |p| == 0 {
      assert s == ", " + t && s[2..] == t;
    } else {
      assert !DelimiterAt(s, 0) by {
        if |p| >= 2 {
          assert !DelimiterAt(p, 0);
        } else {
          assert s[1] == ',';
        }
      }
      var p' := p[1..];
      assert forall i :: !DelimiterAt(p', i) by {
        forall i ensures !DelimiterAt(p', i) {
          assert !DelimiterAt(p, i + 1);
        }
      }
      SplitAfterPart(p', t);
      assert s[1..] == p' + ", " + t;
      var rest := Split(s[1..]);
      assert Split(s) == [[s[0]] + rest[0]] + rest[1..];
      assert rest == [p'] + Split(t);
      assert [s[0]] + p' == p;
    }
  }

  /** Splitting joined delimiter-free parts gives the parts back. */
  lemma {:induction false} SplitJoin(parts: seq<string>)
    requires |parts| >= 1
    requires forall k :: 0 <= k < |parts| ==> DelimiterFree(parts[k])
    ensures Split(Join(parts)) == parts
    decreases |parts|
  {
    if |parts| == 1 {
      SplitDelimiterFree(parts[0]);
    } else {
      SplitJoin(parts[1..]);
      SplitAfterPart(parts[0], Join(parts[1..]));
      assert [parts[0]] + parts[1..] == parts;
    }
  }

  /** "noise, pricing" splits into its two tags, in order. */
  lemma SplitExample()
    ensures Split("noise, pricing") == ["noise", "pricing"]
  {
    assert DelimiterFree("noise") by {
      forall i ensures !DelimiterAt("noise", i) {}
    }
    assert DelimiterFree("pricing") by {
      forall i ensures !DelimiterAt("pricing", i) {}
    }
    SplitJoin(["noise", "pricing"]);
    assert Join(["noise", "pricing"]) == "noise, pricing";
  }
}
