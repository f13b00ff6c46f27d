/**
 Java's `String.split(",")` (limit 0) on a string, and `String.join(",", …)`.

 Java cuts the string at every comma. If there is no comma at all, the result is the
 string itself as the only piece, so "" gives [""]. Otherwise trailing empty pieces are
 removed, while leading and inner empty pieces are kept: ",a,,b,," gives ["", "a", "", "b"]
 and ",,," gives [].
 */
module StringSplit {

  const COMMA: char := ','

  predicate NoComma(p: string) {
    COMMA !in p
  }

  predicate AllNoComma(ps: seq<string>) {
    forall i :: 0 <= i < |ps| ==> NoComma(ps[i])
  }

  /** `String.join(",", ps)`: the pieces with one comma between neighbours. */
  function Join(ps: seq<string>): string
  {
    if |ps| == 0 then ""
    else if |ps| == 1 then ps[0]
    else ps[0] + [COMMA] + Join(ps[1..])
  }

  /** The string with every comma at its end removed. */
  function TrimTrailingCommas(s: string): (r: string)
    ensures |r| <= |s| && r == s[..|r|]
    ensures r == [] || r[|r| - 1] != COMMA
    ensures forall i :: |r| <= i < |s| ==> s[i] == COMMA
  {
    if |s| > 0 && s[|s| - 1] == COMMA then TrimTrailingCommas(s[..|s| - 1]) else s
  }

  /** The sequence with every empty piece at its end removed. */
  function StripTrailingEmpty(ps: seq<string>): (r: seq<string>)
    ensures |r| <= |ps| && r == ps[..|r|]
    ensures r == [] || r[|r| - 1] != ""
    ensures forall i :: |r| <= i < |ps| ==> ps[i] == ""
  {
    if |ps| > 0 && ps[|ps| - 1] == "" then StripTrailingEmpty(ps[..|ps| - 1]) else ps
  }

  /** The string cut at every comma, keeping every piece, empty ones included. */
  function SplitAll(s: string): (r: seq<string>)
    ensures |r| >= 1
    ensures AllNoComma(r)
    decreases |s|
  {
    if s == [] then [""]
    else
      var rest := SplitAll(s[1..]);
      if s[0] == COMMA then [""] + rest
      else [[s[0]] + rest[0]] + rest[1..]
  }

  /**
   `s.split(",")` with Java's limit-0 semantics. No piece holds a comma; joining the pieces
   with commas gives back the input without its trailing commas; the last piece is empty
   only for the empty input, which gives [""]. SplitUnique shows that for a non-empty
   input these properties leave no other result.
   */
  function Split(s: string): (r: seq<string>)
    ensures AllNoComma(r)
    ensures Join(r) == TrimTrailingCommas(s)
    ensures r == [] || r[|r| - 1] != "" || s == ""
    ensures s == "" ==> r == [""]
  {
    if COMMA !in s then
      assert s != "" ==> s[|s| - 1] in s;
      [s]
    else
      JoinSplitAll(s);
      JoinStripTrailingEmpty(SplitAll(s));
      StripTrailingEmpty(SplitAll(s))
  }

  // ---------------------------------------------------------------------------
  // Join and SplitAll are inverse to each other.

  /** Joining the raw pieces gives back the input exactly. */
  lemma {:induction false} JoinSplitAll(s: string)
    ensures Join(SplitAll(s)) == s
    decreases |s|
  {
    if s != [] {
      var rest := SplitAll(s[1..]);
      JoinSplitAll(s[1..]);
      if s[0] == COMMA {
        assert SplitAll(s) == [""] + rest;
        assert ([""] + rest)[1..] == rest;
        assert s == [COMMA] + s[1..];
      } else {
        var ps := [[s[0]] + rest[0]] + rest[1..];
        assert SplitAll(s) == ps;
        if |rest| == 1 {
          assert Join(ps) == [s[0]] + rest[0];
        } else {
          assert ps[1..] == rest[1..];
          assert Join(rest) == rest[0] + [COMMA] + Join(rest[1..]);
          assert Join(ps) == [s[0]] + rest[0] + [COMMA] + Join(rest[1..]);
        }
        assert s == [s[0]] + s[1..];
      }
    }
  }

  /** Splitting a comma-free prefix followed by more text glues the prefix onto the first piece. */
  lemma {:induction false} SplitAllPrefix(p: string, t: string)
    requires NoComma(p)
    ensures SplitAll(p + t) == [p + SplitAll(t)[0]] + SplitAll(t)[1..]
    decreases |p|
  {
    if p != [] {
      assert (p + t)[1..] == p[1..] + t;
      assert (p + t)[0] == p[0] != COMMA;
      SplitAllPrefix(p[1..], t);
      assert [p[0]] + (p[1..] + SplitAll(t)[0]) == p + SplitAll(t)[0];
    } else {
      assert p + t == t;
      assert p + SplitAll(t)[0] == SplitAll(t)[0];
      assert SplitAll(t) == [SplitAll(t)[0]] + SplitAll(t)[1..];
    }
  }

  /** Cutting the join of comma-free pieces gives back those pieces. */
  lemma {:induction false} SplitAllJoin(ps: seq<string>)
    requires |ps| >= 1 && AllNoComma(ps)
    ensures SplitAll(Join(ps)) == ps
  {
    if |ps| == 1 {
      SplitAllPrefix(ps[0], "");
      assert ps[0] + "" == ps[0];
    } else {
      var tail := Join(ps[1..]);
      SplitAllJoin(ps[1..]);
      assert SplitAll([COMMA] + tail) == [""] + SplitAll(tail) by {
        assert ([COMMA] + tail)[1..] == tail;
      }
      assert Join(ps) == ps[0] + ([COMMA] + tail);
      SplitAllPrefix(ps[0], [COMMA] + tail);
      assert ps[0] + "" == ps[0];
      assert ps == [ps[0]] + ps[1..];
    }
  }

  /** Appending one piece to the join appends a comma and that piece. */
  lemma {:induction false} JoinSnoc(ps: seq<string>, p: string)
    requires |ps| >= 1
    ensures Join(ps + [p]) == Join(ps) + [COMMA] + p
  {
    if |ps| > 1 {
      assert (ps + [p])[1..] == ps[1..] + [p];
      JoinSnoc(ps[1..], p);
    }
  }

  /** The join of comma-free pieces whose last piece is not empty does not end in a comma. */
  lemma {:induction false} JoinLast(ps: seq<string>)
    requires |ps| >= 1 && AllNoComma(ps) && ps[|ps| - 1] != ""
    ensures |Join(ps)| > 0 && Join(ps)[|Join(ps)| - 1] != COMMA
  {
    if |ps| > 1 {
      JoinLast(ps[1..]);
    }
  }

  /** Removing empty pieces at the end of the sequence removes the commas at the end of its join. */
  lemma {:induction false} JoinStripTrailingEmpty(ps: seq<string>)
    requires AllNoComma(ps)
    ensures Join(StripTrailingEmpty(ps)) == TrimTrailingCommas(Join(ps))
    decreases |ps|
  {
    if |ps| == 0 {
    } else if ps[|ps| - 1] == "" {
      var init := ps[..|ps| - 1];
      assert ps == init + [""];
      if |init| == 0 {
        assert Join(ps) == "";
      } else {
        JoinSnoc(init, "");
        assert Join(ps) == Join(init) + [COMMA];
        assert (Join(init) + [COMMA])[..|Join(init)|] == Join(init);
        JoinStripTrailingEmpty(init);
      }
    } else {
      JoinLast(ps);
    }
  }

  // ---------------------------------------------------------------------------
  // Split is determined by its contract.

  /** A join is empty only when there are no pieces or just one empty piece. */
  lemma JoinEmpty(ps: seq<string>)
    requires Join(ps) == ""
    ensures ps == [] || ps == [""]
  {
  }

  /**
   Split is determined by its specification: for a non-empty input, the only sequence of
   comma-free pieces without an empty last piece whose join is the input with its trailing
   commas removed is Split's result.
   */
  lemma {:induction false} SplitUnique(s: string, ps: seq<string>)
    requires s != ""
    requires AllNoComma(ps)
    requires ps == [] || ps[|ps| - 1] != ""
    requires Join(ps) == TrimTrailingCommas(s)
    ensures ps == Split(s)
  {
    var r := Split(s);
    if Join(ps) == "" {
      JoinEmpty(ps);
      JoinEmpty(r);
    } else {
      assert ps != [] && r != [];
      SplitAllJoin(ps);
      SplitAllJoin(r);
    }
  }

  /** Examples of the semantics, each derived from SplitUnique. */
  lemma SplitExampleABC()
    ensures Split("a,b,c") == ["a", "b", "c"]
  {
    SplitUnique("a,b,c", ["a", "b", "c"]);
  }

  lemma SplitExampleOrgs()
    ensures Split("org1,org2") == ["org1", "org2"]
  {
    SplitUnique("org1,org2", ["org1", "org2"]);
  }

  lemma SplitExampleInnerAndLeadingEmpty()
    ensures Split(",a,,b,,") == ["", "a", "", "b"]
  {
    SplitUnique(",a,,b,,", ["", "a", "", "b"]);
  }

  lemma SplitExampleOnlyCommas()
    ensures Split(",,,") == []
  {
    SplitUnique(",,,", []);
  }
}
