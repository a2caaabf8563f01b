/** `resolveTexturePath(dotPath)` of solar_system.js: the asset name is split
    on '.', the last segment is the extension, the one before it the file
    name, and the segments before those are joined with '/' as the directory.
    The JavaScript semantics are kept: `split` always yields at least one
    segment, and a `pop` from an empty array gives `undefined`, which the
    template literal prints as "undefined". */
module TexturePath {

  /** A value that `Array.prototype.pop` may return. */
  datatype Popped = Str(s: string) | Undefined

  /** How the template literal prints a popped value. */
  function Show(p: Popped): string
  {
    match p
    case Str(s) => s
    case Undefined => "undefined"
  }

  /** `s.split(sep)`: the pieces between the separators, empty ones included. */
  function Split(s: string, sep: char): (parts: seq<string>)
    ensures |parts| >= 1
  {
    if s == [] then [[]]
    else
      var rest := Split(s[1..], sep);
      if s[0] == sep then [[]] + rest
      else [[s[0]] + rest[0]] + rest[1..]
  }

  /** `parts.join(sep)`. */
  function Join(parts: seq<string>, sep: char): string
  {
    if |parts| == 0 then []
    else if |parts| == 1 then parts[0]
    else parts[0] + [sep] + Join(parts[1..], sep)
  }

  /** `resolveTexturePath(dotPath)`: pop the extension, pop the file name,
      join the rest with '/'. */
  function ResolveTexturePath(dotPath: string): string
  {
    Assemble(Split(dotPath, '.'))
  }

  /** The two pops and the join, on the segments of the name. */
  function Assemble(parts: seq<string>): string
    requires |parts| >= 1
  {
    var ext := parts[|parts| - 1];
    var rest := parts[..|parts| - 1];
    var filename := if |rest| == 0 then Undefined else Str(rest[|rest| - 1]);
    var dirs := if |rest| == 0 then [] else rest[..|rest| - 1];
    Join(dirs, '/') + "/" + Show(filename) + "." + ext
  }

  /** The number of occurrences of c in s. */
  function Count(s: string, c: char): nat
  {
    if s == [] then 0 else (if s[0] == c then 1 else 0) + Count(s[1..], c)
  }

  /** `s.split('/').join('.')` on strings: every '/' becomes '.'. */
  function Replace(s: string, a: char, b: char): (r: string)
    ensures |r| == |s|
  {
    if s == [] then [] else [if s[0] == a then b else s[0]] + Replace(s[1..], a, b)
  }

  // ---------------------------------------------------------------------
  // Split and Join
  // ---------------------------------------------------------------------

  lemma {:induction false} CountConcat(a: string, b: string, c: char)
    ensures Count(a + b, c) == Count(a, c) + Count(b, c)
  {
    if a == [] {
      assert a + b == b;
    } else {
      assert (a + b)[1..] == a[1..] + b;
      CountConcat(a[1..], b, c);
    }
  }

  /** A string without c counts no c. */
  lemma {:induction false} CountAbsent(s: string, c: char)
    requires c !in s
    ensures Count(s, c) == 0
  {
    if s != [] {
      CountAbsent(s[1..], c);
    }
  }

  /** Split pieces consist of the input's characters other than the separator;
      there is one piece more than there are separators. */
  lemma {:induction false} SplitPieces(s: string, sep: char)
    ensures forall p, ch :: p in Split(s, sep) && ch in p ==> ch in s && ch != sep
    ensures |Split(s, sep)| == Count(s, sep) + 1
  {
    if s != [] {
      SplitPieces(s[1..], sep);
      var rest := Split(s[1..], sep);
      forall p, ch | p in Split(s, sep) && ch in p
        ensures ch in s && ch != sep
      {
        if s[0] != sep && p == [s[0]] + rest[0] {
          if ch != s[0] {
            assert ch in rest[0];
            assert rest[0] in rest;
          }
        } else {
          assert p in rest;
        }
      }
    }
  }

  /** Splitting and joining back with the same separator gives the input. */
  lemma {:induction false} JoinSplit(s: string, sep: char)
    ensures Join(Split(s, sep), sep) == s
  {
    if s != [] {
      JoinSplit(s[1..], sep);
      var rest := Split(s[1..], sep);
      if s[0] == sep {
        assert ([[]] + rest)[1..] == rest;
        assert s == [sep] + s[1..];
      } else {
        var p := [[s[0]] + rest[0]] + rest[1..];
        assert s == [s[0]] + s[1..];
        if |rest| == 1 {
          assert Join(rest, sep) == rest[0];
        } else {
          assert p[1..] == rest[1..];
          assert Join(rest, sep) == rest[0] + [sep] + Join(rest[1..], sep);
        }
      }
    }
  }

  /** A string with no separator splits into itself alone. */
  lemma {:induction false} SplitNoSep(x: string, sep: char)
    requires sep !in x
    ensures Split(x, sep) == [x]
  {
    if x != [] {
      SplitNoSep(x[1..], sep);
      assert [x[0]] + x[1..] == x;
    }
  }

  /** A separator-free piece followed by a separator splits off first. */
  lemma {:induction false} SplitCons(x: string, sep: char, t: string)
    requires sep !in x
    ensures Split(x + [sep] + t, sep) == [x] + Split(t, sep)
  {
    if x == [] {
      assert x + [sep] + t == [sep] + t;
      assert ([sep] + t)[1..] == t;
    } else {
      var s := x + [sep] + t;
      assert s[1..] == x[1..] + [sep] + t;
      SplitCons(x[1..], sep, t);
      assert [x[0]] + x[1..] == x;
    }
  }

  /** Joining separator-free pieces and splitting again gives the pieces. */
  lemma {:induction false} SplitJoin(parts: seq<string>, sep: char)
    requires |parts| >= 1
    requires forall m :: 0 <= m < |parts| ==> sep !in parts[m]
    ensures Split(Join(parts, sep), sep) == parts
  {
    if |parts| == 1 {
      SplitNoSep(parts[0], sep);
    } else {
      SplitJoin(parts[1..], sep);
      SplitCons(parts[0], sep, Join(parts[1..], sep));
      assert [parts[0]] + parts[1..] == parts;
    }
  }

  /** Joining appends one separator and the new last piece. */
  lemma {:induction false} JoinSnoc(parts: seq<string>, x: string, sep: char)
    requires |parts| >= 1
    ensures Join(parts + [x], sep) == Join(parts, sep) + [sep] + x
  {
    if |parts| > 1 {
      assert (parts + [x])[1..] == parts[1..] + [x];
      JoinSnoc(parts[1..], x, sep);
    }
  }

  /** Join of pieces without c, with a separator other than c, has no c;
      it has one separator per gap when no piece holds the separator. */
  lemma {:induction false} JoinCount(parts: seq<string>, sep: char, c: char)
    requires forall m :: 0 <= m < |parts| ==> c !in parts[m]
    ensures Count(Join(parts, sep), c) == if c == sep && |parts| > 0 then |parts| - 1 else 0
  {
    if |parts| == 1 {
      CountAbsent(parts[0], c);
    } else if |parts| > 1 {
      JoinCount(parts[1..], sep, c);
      CountAbsent(parts[0], c);
      CountConcat(parts[0] + [sep], Join(parts[1..], sep), c);
      CountConcat(parts[0], [sep], c);
    }
  }

  /** Replacing a by b in a join with separator a, of pieces without a, is
      the join with separator b. */
  lemma {:induction false} ReplaceJoin(parts: seq<string>, a: char, b: char)
    requires forall m :: 0 <= m < |parts| ==> a !in parts[m]
    ensures Replace(Join(parts, a), a, b) == Join(parts, b)
  {
    if |parts| == 1 {
      ReplaceAbsent(parts[0], a, b);
    } else if |parts| > 1 {
      ReplaceJoin(parts[1..], a, b);
      ReplaceAbsent(parts[0], a, b);
      ReplaceConcat(parts[0] + [a], Join(parts[1..], a), a, b);
      ReplaceConcat(parts[0], [a], a, b);
    }
  }

  /** Replace works character by character. */
  lemma {:induction false} ReplaceAt(s: string, a: char, b: char)
    ensures forall m :: 0 <= m < |s| ==> Replace(s, a, b)[m] == if s[m] == a then b else s[m]
  {
    if s != [] {
      ReplaceAt(s[1..], a, b);
    }
  }

  lemma ReplaceAbsent(s: string, a: char, b: char)
    requires a !in s
    ensures Replace(s, a, b) == s
  {
    ReplaceAt(s, a, b);
  }

  lemma ReplaceConcat(s: string, t: string, a: char, b: char)
    ensures Replace(s + t, a, b) == Replace(s, a, b) + Replace(t, a, b)
  {
    ReplaceAt(s + t, a, b);
    ReplaceAt(s, a, b);
    ReplaceAt(t, a, b);
  }

  // ---------------------------------------------------------------------
  // resolveTexturePath
  // ---------------------------------------------------------------------

  /** The shape of the result: with k = |parts| >= 2 it is the first k-2
      pieces joined by '/', then '/', the file name, '.', the extension; with
      a single piece (no '.' in the input) the file name is `undefined`. */
  lemma ResolveForm(dotPath: string)
    ensures var parts := Split(dotPath, '.');
            var k := |parts|;
            && (k >= 2 ==> ResolveTexturePath(dotPath) == Join(parts[..k - 2], '/') + "/" + parts[k - 2] + "." + parts[k - 1])
            && (k == 1 ==> ResolveTexturePath(dotPath) == "/undefined." + dotPath)
  {
    var parts := Split(dotPath, '.');
    AssembleForm(parts);
    if |parts| == 1 {
      JoinSplit(dotPath, '.');
    }
  }

  /** The same shape, on the segments. */
  lemma AssembleForm(parts: seq<string>)
    requires |parts| >= 1
    ensures var k := |parts|;
            && (k >= 2 ==> Assemble(parts) == Join(parts[..k - 2], '/') + "/" + parts[k - 2] + "." + parts[k - 1])
            && (k == 1 ==> Assemble(parts) == "/undefined." + parts[0])
  {
    var k := |parts|;
    if k >= 2 {
      assert parts[..k - 1][..k - 2] == parts[..k - 2];
    }
  }

  /** The extension is kept: the result ends in '.' and the last segment. */
  lemma ExtensionKept(dotPath: string)
    ensures var parts := Split(dotPath, '.');
            var ext := "." + parts[|parts| - 1];
            var r := ResolveTexturePath(dotPath);
            |r| >= |ext| && r[|r| - |ext|..] == ext
  {
  }

  /** The result always holds exactly one '.': the one before the extension. */
  lemma OneDot(dotPath: string)
    ensures Count(ResolveTexturePath(dotPath), '.') == 1
  {
    PiecesWithout(dotPath, '.', '.');
    AssembleOneDot(Split(dotPath, '.'));
  }

  /** Segments without '.' assemble to a path with exactly one '.'. */
  lemma AssembleOneDot(parts: seq<string>)
    requires |parts| >= 1
    requires forall m :: 0 <= m < |parts| ==> '.' !in parts[m]
    ensures Count(Assemble(parts), '.') == 1
  {
    var k := |parts|;
    var ext := parts[k - 1];
    var rest := parts[..k - 1];
    var filename := if |rest| == 0 then Undefined else Str(rest[|rest| - 1]);
    var dirs := if |rest| == 0 then [] else rest[..|rest| - 1];
    assert forall m :: 0 <= m < |dirs| ==> dirs[m] == parts[m];
    JoinCount(dirs, '/', '.');
    CountAbsent(Show(filename), '.');
    CountAbsent(ext, '.');
    var j := Join(dirs, '/');
    CountConcat(j, "/", '.');
    CountConcat(j + "/", Show(filename), '.');
    CountConcat(j + "/" + Show(filename), ".", '.');
    CountConcat(j + "/" + Show(filename) + ".", ext, '.');
  }

  /** For an input without '/': with k >= 3 segments the result has k - 2
      slashes (one per directory level), with k = 2 it has one. */
  lemma Slashes(dotPath: string)
    requires '/' !in dotPath
    ensures var k := |Split(dotPath, '.')|;
            && (k >= 3 ==> Count(ResolveTexturePath(dotPath), '/') == k - 2)
            && (k == 2 ==> Count(ResolveTexturePath(dotPath), '/') == 1)
  {
    var parts := Split(dotPath, '.');
    if |parts| >= 2 {
      PiecesWithout(dotPath, '.', '/');
      AssembleSlashes(parts);
    }
  }

  /** Two or more segments without '/' assemble to a path with one '/' per
      directory and one more before the file name. */
  lemma AssembleSlashes(parts: seq<string>)
    requires |parts| >= 2
    requires forall m :: 0 <= m < |parts| ==> '/' !in parts[m]
    ensures Count(Assemble(parts), '/') == if |parts| >= 3 then |parts| - 2 else 1
  {
    var k := |parts|;
    var dirs := parts[..k - 2];
    AssembleForm(parts);
    LastTwo(parts, dirs, '/');
    JoinCount(dirs, '/', '/');
    CountAbsent(parts[k - 2], '/');
    CountAbsent(parts[k - 1], '/');
    var j := Join(dirs, '/');
    CountConcat(j, "/", '/');
    CountConcat(j + "/", parts[k - 2], '/');
    CountConcat(j + "/" + parts[k - 2], ".", '/');
    CountConcat(j + "/" + parts[k - 2] + ".", parts[k - 1], '/');
  }

  /** Turning the '/' of the assembled path back into '.' gives the pieces
      joined by '.', when no piece holds a '/'. */
  lemma ReplaceAssembled(dirs: seq<string>, file: string, ext: string)
    requires |dirs| >= 1
    requires forall m :: 0 <= m < |dirs| ==> '/' !in dirs[m]
    requires '/' !in file && '/' !in ext
    ensures Replace(Join(dirs, '/') + "/" + file + "." + ext, '/', '.') == Join(dirs + [file, ext], '.')
  {
    var tail := file + "." + ext;
    assert '/' !in tail;
    calc {
      Replace(Join(dirs, '/') + "/" + file + "." + ext, '/', '.');
      { JoinSnoc(dirs, tail, '/');
        assert Join(dirs, '/') + "/" + file + "." + ext == Join(dirs + [tail], '/'); }
      Replace(Join(dirs + [tail], '/'), '/', '.');
      { ReplaceJoin(dirs + [tail], '/', '.'); }
      Join(dirs + [tail], '.');
      { JoinSnoc(dirs, tail, '.'); }
      Join(dirs, '.') + "." + tail;
      Join(dirs, '.') + "." + file + "." + ext;
      { JoinSnoc(dirs, file, '.'); }
      Join(dirs + [file], '.') + "." + ext;
      { JoinSnoc(dirs + [file], ext, '.');
        assert dirs + [file] + [ext] == dirs + [file, ext]; }
      Join(dirs + [file, ext], '.');
    }
  }

  /** Round trip: for an input without '/' and with at least three segments,
      turning every '/' of the result back into '.' gives the input; with two
      segments it gives the input behind a leading '.'. */
  lemma RoundTrip(dotPath: string)
    requires '/' !in dotPath
    ensures var k := |Split(dotPath, '.')|;
            && (k >= 3 ==> Replace(ResolveTexturePath(dotPath), '/', '.') == dotPath)
            && (k == 2 ==> Replace(ResolveTexturePath(dotPath), '/', '.') == "." + dotPath)
  {
    var k := |Split(dotPath, '.')|;
    if k >= 3 {
      RoundTripLong(dotPath);
    } else if k == 2 {
      RoundTripShort(dotPath);
    }
  }

  /** The round trip with at least three segments. */
  lemma RoundTripLong(dotPath: string)
    requires '/' !in dotPath && |Split(dotPath, '.')| >= 3
    ensures Replace(ResolveTexturePath(dotPath), '/', '.') == dotPath
  {
    var parts := Split(dotPath, '.');
    calc {
      Replace(ResolveTexturePath(dotPath), '/', '.');
      Replace(Assemble(parts), '/', '.');
      { PiecesWithout(dotPath, '.', '/'); AssembledParts(parts); }
      Join(parts, '.');
      { JoinSplit(dotPath, '.'); }
      dotPath;
    }
  }

  /** No piece of a split holds the separator, nor a character the input
      does not hold. */
  lemma PiecesWithout(s: string, sep: char, c: char)
    requires c !in s || c == sep
    ensures forall m :: 0 <= m < |Split(s, sep)| ==> c !in Split(s, sep)[m]
  {
    var parts := Split(s, sep);
    SplitPieces(s, sep);
    forall m | 0 <= m < |parts| ensures c !in parts[m] {
      assert parts[m] in parts;
    }
  }

  /** The assembled path of three or more pieces without '/', turned back,
      is the pieces joined by '.'. */
  lemma AssembledParts(parts: seq<string>)
    requires |parts| >= 3
    requires forall m :: 0 <= m < |parts| ==> '/' !in parts[m]
    ensures Replace(Assemble(parts), '/', '.') == Join(parts, '.')
  {
    var k := |parts|;
    var dirs, file, ext := parts[..k - 2], parts[k - 2], parts[k - 1];
    calc {
      Replace(Assemble(parts), '/', '.');
      { AssembleForm(parts); }
      Replace(Join(dirs, '/') + "/" + file + "." + ext, '/', '.');
      { LastTwo(parts, dirs, '/'); ReplaceAssembled(dirs, file, ext); }
      Join(dirs + [file, ext], '.');
      { LastTwo(parts, dirs, '/'); }
      Join(parts, '.');
    }
  }

  /** Taking the last two pieces off and putting them back; the pieces before
      them keep whatever every piece keeps. */
  lemma LastTwo(parts: seq<string>, dirs: seq<string>, c: char)
    requires |parts| >= 2 && dirs == parts[..|parts| - 2]
    requires forall m :: 0 <= m < |parts| ==> c !in parts[m]
    ensures dirs + [parts[|parts| - 2], parts[|parts| - 1]] == parts
    ensures forall m :: 0 <= m < |dirs| ==> c !in dirs[m]
    ensures c !in parts[|parts| - 2] && c !in parts[|parts| - 1]
  {
    var k := |parts|;
    assert parts[k - 2..] == [parts[k - 2], parts[k - 1]];
    assert parts[..k - 2] + parts[k - 2..] == parts;
    forall m | 0 <= m < |dirs| ensures c !in dirs[m] {
      assert dirs[m] == parts[m];
    }
  }

  /** The round trip with two segments. */
  lemma RoundTripShort(dotPath: string)
    requires '/' !in dotPath && |Split(dotPath, '.')| == 2
    ensures Replace(ResolveTexturePath(dotPath), '/', '.') == "." + dotPath
  {
    calc {
      Replace(ResolveTexturePath(dotPath), '/', '.');
      { TwoSegments(dotPath); }
      Replace("/" + dotPath, '/', '.');
      { ReplaceConcat("/", dotPath, '/', '.'); ReplaceAbsent(dotPath, '/', '.'); }
      "." + dotPath;
    }
  }

  /** With exactly two segments the directory is empty and the result is the
      input behind a '/'. */
  lemma TwoSegments(dotPath: string)
    ensures |Split(dotPath, '.')| == 2 ==> ResolveTexturePath(dotPath) == "/" + dotPath
  {
    var parts := Split(dotPath, '.');
    if |parts| == 2 {
      calc {
        ResolveTexturePath(dotPath);
        Assemble(parts);
        { AssembleTwo(parts); }
        "/" + Join(parts, '.');
        { JoinSplit(dotPath, '.'); }
        "/" + dotPath;
      }
    }
  }

  /** Two segments assemble to their '.'-join behind a '/'. */
  lemma AssembleTwo(parts: seq<string>)
    requires |parts| == 2
    ensures Assemble(parts) == "/" + Join(parts, '.')
  {
    AssembleForm(parts);
    assert Join(parts[..0], '/') == [];
    assert Join(parts, '.') == parts[0] + "." + parts[1];
  }

  /** The Mercury name, written piece by piece and as in the table. */
  lemma MercuryName()
    ensures "assets" + "." + "solar_system" + "." + "planets" + "." + "mercury" + "." + "8k_mercury" + "." + "jpg"
         == "assets.solar_system.planets.mercury.8k_mercury.jpg"
  {
    var a := "assets" + "." + "solar_system" + "." + "planets" + "." + "mercury" + "." + "8k_mercury" + "." + "jpg";
    var b := "assets.solar_system.planets.mercury.8k_mercury.jpg";
    assert |a| == |b|;
    forall m | 0 <= m < |a| ensures a[m] == b[m] {}
  }

  /** The Mercury path, written piece by piece and in full. */
  lemma MercuryPath()
    ensures "assets" + "/" + "solar_system" + "/" + "planets" + "/" + "mercury" + "/" + "8k_mercury" + "." + "jpg"
         == "assets/solar_system/planets/mercury/8k_mercury.jpg"
  {
    var c := "assets" + "/" + "solar_system" + "/" + "planets" + "/" + "mercury" + "/" + "8k_mercury" + "." + "jpg";
    var d := "assets/solar_system/planets/mercury/8k_mercury.jpg";
    assert |c| == |d|;
    forall m | 0 <= m < |c| ensures c[m] == d[m] {}
  }

  /** The six segments of the Mercury name joined by '.' give the name. */
  lemma MercuryJoin()
    ensures Join(["assets", "solar_system", "planets", "mercury", "8k_mercury", "jpg"], '.')
         == "assets.solar_system.planets.mercury.8k_mercury.jpg"
  {
    var parts := ["assets", "solar_system", "planets", "mercury", "8k_mercury", "jpg"];
    assert parts[1..][1..][1..][1..][1..] == ["jpg"];
    assert Join(parts, '.') == "assets" + "." + "solar_system" + "." + "planets" + "." + "mercury" + "." + "8k_mercury" + "." + "jpg";
    MercuryName();
  }

  /** The Mercury name splits into its six segments. */
  lemma MercurySplit(texture: string)
    requires texture == "assets.solar_system.planets.mercury.8k_mercury.jpg"
    ensures Split(texture, '.') == ["assets", "solar_system", "planets", "mercury", "8k_mercury", "jpg"]
  {
    var parts := ["assets", "solar_system", "planets", "mercury", "8k_mercury", "jpg"];
    MercuryJoin();
    SplitJoin(parts, '.');
  }

  /** The Mercury texture of the planet table. */
  lemma MercuryExample(texture: string)
    requires texture == "assets.solar_system.planets.mercury.8k_mercury.jpg"
    ensures ResolveTexturePath(texture) == "assets/solar_system/planets/mercury/8k_mercury.jpg"
  {
    var parts := ["assets", "solar_system", "planets", "mercury", "8k_mercury", "jpg"];
    calc {
      ResolveTexturePath(texture);
      { MercurySplit(texture); }
      Assemble(parts);
      { MercuryAssemble(parts); }
      "assets/solar_system/planets/mercury/8k_mercury.jpg";
    }
  }

  /** The six Mercury segments assemble to the Mercury path. */
  lemma MercuryAssemble(parts: seq<string>)
    requires parts == ["assets", "solar_system", "planets", "mercury", "8k_mercury", "jpg"]
    ensures Assemble(parts) == "assets/solar_system/planets/mercury/8k_mercury.jpg"
  {
    var dirs := ["assets", "solar_system", "planets", "mercury"];
    calc {
      Assemble(parts);
      { AssembleForm(parts); assert parts[..4] == dirs; }
      Join(dirs, '/') + "/" + parts[4] + "." + parts[5];
      { assert dirs[1..][1..][1..] == ["mercury"]; }
      "assets" + "/" + "solar_system" + "/" + "planets" + "/" + "mercury" + "/" + "8k_mercury" + "." + "jpg";
      { MercuryPath(); }
      "assets/solar_system/planets/mercury/8k_mercury.jpg";
    }
  }
}
