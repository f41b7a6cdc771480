/**
 The application name a database connection announces: the caller's name,
 with every run of characters other than ASCII letters and digits turned
 into one `-`, followed by a space and the library's own identifier, and
 cut down to its last 64 characters.
 */
module Connections {
  import opened Values

  /** The longest application name the server keeps. */
  const MaxNameLength := 64

  /** The library's identifier: `odc-` and its version. */
  function LibraryId(version: string): (r: string)
    ensures |r| == |version| + 4 && r[..4] == "odc-" && r[4..] == version
  {
    "odc-" + version
  }

  predicate Alnum(c: char) {
    '0' <= c <= '9' || 'a' <= c <= 'z' || 'A' <= c <= 'Z'
  }

  /** Drops the leading characters that are not letters or digits. */
  function DropRun(s: string): (r: string)
    ensures |r| <= |s| && r == s[|s| - |r|..]
    ensures forall i :: 0 <= i < |s| - |r| ==> !Alnum(s[i])
    ensures |r| > 0 ==> Alnum(r[0])
  {
    if |s| == 0 || Alnum(s[0]) then s else DropRun(s[1..])
  }

  /** Replaces every maximal run of characters that are not letters or
      digits by a single `-`. */
  function Collapse(s: string): (r: string)
    decreases |s|
  {
    if |s| == 0 then ""
    else if Alnum(s[0]) then [s[0]] + Collapse(s[1..])
    else "-" + Collapse(DropRun(s[1..]))
  }

  /** Only letters, digits and single dashes. */
  predicate Collapsed(r: string) {
    && (forall i :: 0 <= i < |r| ==> Alnum(r[i]) || r[i] == '-')
    && (forall i :: 0 <= i < |r| - 1 ==> !(r[i] == '-' && r[i + 1] == '-'))
  }

  /** The letters and digits of a string, in order. */
  function Alnums(s: string): (r: string)
    ensures forall i :: 0 <= i < |r| ==> Alnum(r[i])
    ensures |r| <= |s|
  {
    if |s| == 0 then ""
    else if Alnum(s[0]) then [s[0]] + Alnums(s[1..])
    else Alnums(s[1..])
  }

  /** The last `MaxNameLength` characters, or all of them when there are
      fewer. */
  function Last(full: string): (r: string)
    ensures |r| <= MaxNameLength
    ensures |full| <= MaxNameLength ==> r == full
    ensures |full| > MaxNameLength ==> |r| == MaxNameLength && r == full[|full| - MaxNameLength..]
  {
    if |full| > MaxNameLength then full[|full| - MaxNameLength..] else full
  }

  /** The application name for a requested name: a falsy request gives the
      library's identifier alone; a truthy one must be a string. */
  function ExpandAppName(requested: Value, version: string): (r: Result<string>)
    ensures !Truthy(requested) ==> r == Ok(Last(LibraryId(version)))
    ensures Truthy(requested) && !requested.Str? ==> r == Err(TypeError(ApplicationNameNotString))
    ensures requested.Str? && |requested.s| > 0 ==> r == Ok(Last(Collapse(requested.s) + " " + LibraryId(version)))
    ensures r.Ok? ==> |r.value| <= MaxNameLength
  {
    if !Truthy(requested) then Ok(Last(LibraryId(version)))
    else if !requested.Str? then Err(TypeError(ApplicationNameNotString))
    else Ok(Last(Collapse(requested.s) + " " + LibraryId(version)))
  }

  /** A dropped run leaves the letters and digits alone. */
  lemma {:induction false} DropRunKeepsAlnums(s: string)
    ensures Alnums(DropRun(s)) == Alnums(s)
    decreases |s|
  {
    if |s| > 0 && !Alnum(s[0]) {
      DropRunKeepsAlnums(s[1..]);
    }
  }

  /** The collapsed name starts with the same character class as the
      name: a letter or digit when the name starts with one. */
  lemma CollapseHead(s: string)
    requires |s| > 0 && Alnum(s[0])
    ensures |Collapse(s)| > 0 && Collapse(s)[0] == s[0]
  {
  }

  /** A letter, a digit, or a dash before something that does not start
      with a dash, keeps a collapsed string collapsed. */
  lemma ConsCollapsed(c: char, t: string)
    requires Collapsed(t)
    requires Alnum(c) || (c == '-' && (|t| == 0 || t[0] != '-'))
    ensures Collapsed([c] + t)
  {
    var r := [c] + t;
    assert forall i :: 1 <= i < |r| ==> r[i] == t[i - 1];
  }

  /** Collapsing yields only letters, digits and single dashes. */
  lemma {:induction false} CollapseIsCollapsed(s: string)
    ensures Collapsed(Collapse(s))
    decreases |s|
  {
    if |s| > 0 {
      if Alnum(s[0]) {
        CollapseIsCollapsed(s[1..]);
        ConsCollapsed(s[0], Collapse(s[1..]));
      } else {
        var d := DropRun(s[1..]);
        CollapseIsCollapsed(d);
        if |d| > 0 {
          CollapseHead(d);
        }
        ConsCollapsed('-', Collapse(d));
        assert Collapse(s) == ['-'] + Collapse(d);
      }
    }
  }

  /** Collapsing keeps every letter and digit, in order. */
  lemma {:induction false} CollapseKeepsAlnums(s: string)
    ensures Alnums(Collapse(s)) == Alnums(s)
    decreases |s|
  {
    if |s| > 0 {
      if Alnum(s[0]) {
        CollapseKeepsAlnums(s[1..]);
        assert ([s[0]] + Collapse(s[1..]))[1..] == Collapse(s[1..]);
      } else {
        var d := DropRun(s[1..]);
        CollapseKeepsAlnums(d);
        DropRunKeepsAlnums(s[1..]);
        assert ("-" + Collapse(d))[1..] == Collapse(d);
      }
    }
  }

  /** A string that is already collapsed is left unchanged. */
  lemma {:induction false} CollapseFixesCollapsed(s: string)
    requires Collapsed(s)
    ensures Collapse(s) == s
    decreases |s|
  {
    if |s| > 0 {
      assert Collapsed(s[1..]) by {
        assert forall i :: 0 <= i < |s| - 1 ==> s[1..][i] == s[i + 1];
      }
      if Alnum(s[0]) {
        CollapseFixesCollapsed(s[1..]);
        assert s == [s[0]] + s[1..];
      } else {
        assert s[0] == '-';
        assert DropRun(s[1..]) == s[1..] by {
          if |s| > 1 {
            assert s[1] != '-';
            assert Alnum(s[1]);
          }
        }
        CollapseFixesCollapsed(s[1..]);
        assert s == "-" + s[1..];
      }
    }
  }

  /** Normalising a name twice changes nothing more. */
  lemma CollapseIdempotent(s: string)
    ensures Collapse(Collapse(s)) == Collapse(s)
  {
    CollapseIsCollapsed(s);
    CollapseFixesCollapsed(Collapse(s));
  }

  /** Dropping a run of separators that ends where a letter or digit (or
      the string) begins leaves exactly what follows the run. */
  lemma {:induction false} DropRunOver(w: string, y: string)
    requires forall i :: 0 <= i < |w| ==> !Alnum(w[i])
    requires |y| == 0 || Alnum(y[0])
    ensures DropRun(w + y) == y
    decreases |w|
  {
    if |w| == 0 {
      assert w + y == y;
    } else {
      assert (w + y)[0] == w[0];
      assert (w + y)[1..] == w[1..] + y;
      DropRunOver(w[1..], y);
    }
  }

  /** Each maximal run of characters other than letters and digits becomes
      exactly one dash, whatever its length and content. */
  lemma SeparatorRunIsOneDash(w: string, y: string)
    requires |w| > 0 && forall i :: 0 <= i < |w| ==> !Alnum(w[i])
    requires |y| == 0 || Alnum(y[0])
    ensures Collapse(w + y) == "-" + Collapse(y)
  {
    assert (w + y)[0] == w[0];
    assert (w + y)[1..] == w[1..] + y;
    DropRunOver(w[1..], y);
  }

  /** Dropping the leading separators of a string that ends with a letter
      or digit is not affected by what follows it. */
  lemma {:induction false} DropRunAppend(s: string, z: string)
    requires |s| > 0 && Alnum(s[|s| - 1])
    ensures DropRun(s + z) == DropRun(s) + z
    decreases |s|
  {
    assert (s + z)[0] == s[0];
    if !Alnum(s[0]) {
      assert (s + z)[1..] == s[1..] + z;
      DropRunAppend(s[1..], z);
    }
  }

  lemma Associative(a: string, b: string, c: string)
    ensures a + (b + c) == (a + b) + c
  {
  }

  /** A leading letter or digit is kept. */
  lemma CollapseAlnumHead(c: char, t: string)
    requires Alnum(c)
    ensures Collapse([c] + t) == [c] + Collapse(t)
  {
    assert ([c] + t)[1..] == t;
  }

  /** A leading separator starts a run that becomes one dash. */
  lemma CollapseSeparatorHead(c: char, t: string)
    requires !Alnum(c)
    ensures Collapse([c] + t) == "-" + Collapse(DropRun(t))
  {
    assert ([c] + t)[1..] == t;
  }

  /** Letters and digits separate the runs: a name that ends with a letter
      or digit normalises independently of what follows it. */
  lemma {:induction false} CollapseSplitsAfterAlnum(x: string, z: string)
    requires |x| > 0 && Alnum(x[|x| - 1])
    ensures Collapse(x + z) == Collapse(x) + Collapse(z)
    decreases |x|
  {
    var c, t := x[0], x[1..];
    assert x == [c] + t && x + z == [c] + (t + z);
    if Alnum(c) {
      assert Collapse(x + z) == Collapse(x) + Collapse(z) by {
        CollapseAlnumHead(c, t + z);
        CollapseAlnumHead(c, t);
        if |t| > 0 {
          CollapseSplitsAfterAlnum(t, z);
        } else {
          assert t + z == z && Collapse(t) == "";
        }
        Associative([c], Collapse(t), Collapse(z));
      }
    } else {
      assert Collapse(x + z) == Collapse(x) + Collapse(z) by {
        CollapseSeparatorHead(c, t + z);
        CollapseSeparatorHead(c, t);
        var d := DropRun(t);
        DropRunAppend(t, z);
        assert |d| > 0 && d[|d| - 1] == x[|x| - 1];
        CollapseSplitsAfterAlnum(d, z);
        Associative("-", Collapse(d), Collapse(z));
      }
    }
  }

  /** The name given is a suffix of the full name, and the full name is
      kept whole when it fits. */
  lemma ExpandedIsSuffix(requested: Value, version: string)
    requires ExpandAppName(requested, version).Ok?
    ensures var full := if Truthy(requested) then Collapse(requested.s) + " " + LibraryId(version) else LibraryId(version);
            var r := ExpandAppName(requested, version).value;
            && |r| <= |full|
            && r == full[|full| - |r|..]
            && (|full| <= MaxNameLength <==> r == full)
  {
    var full := if Truthy(requested) then Collapse(requested.s) + " " + LibraryId(version) else LibraryId(version);
    assert ExpandAppName(requested, version).value == Last(full);
  }

  /** A missing or empty name gives exactly the library's identifier, for
      any version short enough to fit. */
  lemma FalsyNameIsLibraryId(requested: Value, version: string)
    requires requested == Null || requested == Str("")
    requires |version| <= MaxNameLength - 4
    ensures ExpandAppName(requested, version) == Ok("odc-" + version)
  {
  }

  /** A letter or digit is kept as it is. */
  lemma KeepStep(s: string)
    requires |s| > 0 && Alnum(s[0])
    ensures Collapse(s) == [s[0]] + Collapse(s[1..])
  {
  }

  /** A single separator before a letter or digit becomes one dash. */
  lemma SeparatorStep(s: string)
    requires |s| > 1 && !Alnum(s[0]) && Alnum(s[1])
    ensures Collapse(s) == "-" + Collapse(s[1..])
  {
  }

  lemma CollapseOfExample()
    ensures Collapse("a b.c/d") == "a-b-c-d"
  {
    var s := "a b.c/d";
    assert s[7..] == "";
    assert s[6..] == "d";
    KeepStep(s[6..]);
    assert Collapse(s[6..]) == "d";
    assert s[5..] == "/d";
    SeparatorStep(s[5..]);
    assert s[5..][1..] == s[6..];
    assert Collapse(s[5..]) == "-d";
    assert s[4..] == "c/d";
    KeepStep(s[4..]);
    assert s[4..][1..] == s[5..];
    assert Collapse(s[4..]) == "c-d";
    assert s[3..] == ".c/d";
    SeparatorStep(s[3..]);
    assert s[3..][1..] == s[4..];
    assert Collapse(s[3..]) == "-c-d";
    assert s[2..] == "b.c/d";
    KeepStep(s[2..]);
    assert s[2..][1..] == s[3..];
    assert Collapse(s[2..]) == "b-c-d";
    assert s[1..] == " b.c/d";
    SeparatorStep(s[1..]);
    assert s[1..][1..] == s[2..];
    assert Collapse(s[1..]) == "-b-c-d";
    KeepStep(s);
  }

  /** `a b.c/d` announces itself as `a-b-c-d` before the identifier. */
  lemma PunctuationBecomesDashes(version: string)
    requires |version| <= 20
    ensures ExpandAppName(Str("a b.c/d"), version) == Ok("a-b-c-d " + LibraryId(version))
  {
    CollapseOfExample();
    assert "a-b-c-d" + " " == "a-b-c-d ";
  }

  /** A long name loses its beginning, never the library's identifier. */
  lemma LongNameKeepsIdentifier(name: string, version: string)
    requires |name| > 0 && |version| <= 20
    ensures var r := ExpandAppName(Str(name), version).value;
            r[|r| - |version| - 4..] == "odc-" + version
  {
    var full := Collapse(name) + " " + LibraryId(version);
    var r := Last(full);
    assert full[|full| - |version| - 4..] == "odc-" + version;
    assert r[|r| - |version| - 4..] == full[|full| - |version| - 4..];
  }
}
