/** The scripts of one directory as the migration runner sees them
    (scripts/deploy_to_snowflake.py, lines 19-21 and 34): the entries whose
    name matches `*.sql`, in sorted order, each known in the log by the key
    `directory/name`.

    The directory listing is an input: an entry is a file name with the text
    of the file. */
module ScriptFiles {
  import opened Sorting

  datatype ScriptFile = ScriptFile(name: string, text: string)

  /** Python's `str` ordering: code point by code point, a proper prefix first. */
  predicate LexLe(a: string, b: string) {
    a == [] || (b != [] && (a[0] < b[0] || (a[0] == b[0] && LexLe(a[1..], b[1..]))))
  }

  /** A sequence of strings in `LexLe` order. */
  ghost predicate InLexOrder(s: seq<string>) {
    forall i, j :: 0 <= i < j < |s| ==> LexLe(s[i], s[j])
  }

  lemma {:induction false} LexLeTotal(a: string, b: string)
    ensures LexLe(a, b) || LexLe(b, a)
  {
    if a != [] && b != [] && a[0] == b[0] {
      LexLeTotal(a[1..], b[1..]);
    }
  }

  lemma {:induction false} LexLeTransitive(a: string, b: string, c: string)
    requires LexLe(a, b) && LexLe(b, c)
    ensures LexLe(a, c)
  {
    if a != [] && a[0] == b[0] && b[0] == c[0] {
      LexLeTransitive(a[1..], b[1..], c[1..]);
    }
  }

  /** Two names in `LexLe` both ways are the same name. */
  lemma {:induction false} LexLeAntisymmetric(a: string, b: string)
    requires LexLe(a, b) && LexLe(b, a)
    ensures a == b
  {
    if a != [] {
      LexLeAntisymmetric(a[1..], b[1..]);
      assert a == [a[0]] + a[1..] && b == [b[0]] + b[1..];
    }
  }

  /** Files compare by name: sibling paths compare as their last parts do. */
  predicate NameLe(f: ScriptFile, g: ScriptFile) {
    LexLe(f.name, g.name)
  }

  lemma NameLeIsTotalPreorder()
    ensures TotalPreorder(NameLe)
  {
    forall f: ScriptFile, g: ScriptFile ensures NameLe(f, g) || NameLe(g, f) {
      LexLeTotal(f.name, g.name);
    }
    forall f: ScriptFile, g: ScriptFile, h: ScriptFile | NameLe(f, g) && NameLe(g, h)
      ensures NameLe(f, h)
    {
      LexLeTransitive(f.name, g.name, h.name);
    }
  }

  /** The pattern `*.sql`: any name, the empty one included, followed by ".sql". */
  predicate IsSqlName(name: string) {
    |name| >= 4 && name[|name| - 4..] == ".sql"
  }

  /** The entries that match `*.sql`, in listing order. */
  function Matching(entries: seq<ScriptFile>): (r: seq<ScriptFile>)
    ensures forall f :: f in r <==> f in entries && IsSqlName(f.name)
    ensures forall k :: 0 <= k < |r| ==> IsSqlName(r[k].name)
  {
    if entries == [] then []
    else if IsSqlName(entries[0].name) then [entries[0]] + Matching(entries[1..])
    else Matching(entries[1..])
  }

  /** Each matching entry is kept as often as it is listed; the others never. */
  lemma {:induction false} MatchingCounts(entries: seq<ScriptFile>)
    ensures forall f :: multiset(Matching(entries))[f] == if IsSqlName(f.name) then multiset(entries)[f] else 0
  {
    if entries != [] {
      assert entries == [entries[0]] + entries[1..];
      MatchingCounts(entries[1..]);
    }
  }

  /** `sorted(Path(directory).glob("*.sql"))` (line 19): exactly the matching
      entries, each as often as listed, ordered by name. */
  function SqlFiles(entries: seq<ScriptFile>): (files: seq<ScriptFile>)
    ensures multiset(files) == multiset(Matching(entries))
    ensures forall f :: f in files <==> f in entries && IsSqlName(f.name)
    ensures forall i, j :: 0 <= i < j < |files| ==> LexLe(files[i].name, files[j].name)
  {
    NameLeIsTotalPreorder();
    var files := SortBy(Matching(entries), NameLe);
    assert forall f :: f in files <==> f in Matching(entries) by {
      forall f ensures f in files <==> f in Matching(entries) {
        assert f in files <==> f in multiset(files);
        assert f in Matching(entries) <==> f in multiset(Matching(entries));
      }
    }
    files
  }

  /** Names in one listing are distinct, as in a real directory. */
  ghost predicate DistinctNames(files: seq<ScriptFile>) {
    forall i, j :: 0 <= i < j < |files| ==> files[i].name != files[j].name
  }

  /** In a listing of distinct names no entry occurs twice. */
  lemma {:induction false} DistinctNamesOccurOnce(files: seq<ScriptFile>, f: ScriptFile)
    requires DistinctNames(files)
    ensures multiset(files)[f] <= 1
  {
    if files != [] {
      var tail := files[1..];
      assert files == [files[0]] + tail;
      assert DistinctNames(tail) by {
        forall i, j | 0 <= i < j < |tail| ensures tail[i].name != tail[j].name {
          assert tail[i] == files[i + 1] && tail[j] == files[j + 1];
        }
      }
      DistinctNamesOccurOnce(tail, f);
      assert files[0] !in tail by {
        forall k | 0 <= k < |tail| ensures tail[k] != files[0] {
          assert tail[k] == files[k + 1];
        }
      }
    }
  }

  /** An element at two indices occurs at least twice. */
  lemma OccursTwice(files: seq<ScriptFile>, i: nat, j: nat)
    requires i < j < |files| && files[i] == files[j]
    ensures multiset(files)[files[i]] >= 2
  {
    assert files == files[..j] + [files[j]] + files[j + 1..];
    assert files[i] == files[..j][i];
  }

  /** Sorting and selecting the `*.sql` entries cannot repeat one of them. */
  lemma SqlFilesOnce(entries: seq<ScriptFile>, i: nat, j: nat)
    requires DistinctNames(entries) && i < j < |SqlFiles(entries)|
    ensures SqlFiles(entries)[i] != SqlFiles(entries)[j]
  {
    var files := SqlFiles(entries);
    var f := files[i];
    DistinctNamesOccurOnce(entries, f);
    MatchingCounts(entries);
    assert multiset(files)[f] == multiset(Matching(entries))[f] <= multiset(entries)[f];
    if files[j] == f {
      OccursTwice(files, i, j);
    }
  }

  /** The `*.sql` files of a listing of distinct names have distinct names. */
  lemma SqlFilesDistinct(entries: seq<ScriptFile>)
    requires DistinctNames(entries)
    ensures DistinctNames(SqlFiles(entries))
  {
    var files := SqlFiles(entries);
    forall i, j | 0 <= i < j < |files| ensures files[i].name != files[j].name {
      SqlFilesOnce(entries, i, j);
      assert files[i] in entries && files[j] in entries;
      var a :| 0 <= a < |entries| && entries[a] == files[i];
      var b :| 0 <= b < |entries| && entries[b] == files[j];
      assert a != b;
    }
  }

  /** The log key of a script: the string the skip test looks up (line 21) is
      the one the runner inserts (line 34). */
  function Key(directory: string, name: string): (key: string)
    ensures |key| == |directory| + 1 + |name|
    ensures key[..|directory|] == directory && key[|directory|] == '/' && key[|directory| + 1..] == name
  {
    directory + "/" + name
  }

  /** Keys of one directory compare as their file names do. */
  lemma {:induction false} LexLeCommonPrefix(p: string, a: string, b: string)
    ensures LexLe(p + a, p + b) <==> LexLe(a, b)
  {
    if p != [] {
      assert (p + a)[1..] == p[1..] + a && (p + b)[1..] == p[1..] + b;
      LexLeCommonPrefix(p[1..], a, b);
    } else {
      assert p + a == a && p + b == b;
    }
  }

  lemma KeyOrder(directory: string, a: string, b: string)
    ensures LexLe(Key(directory, a), Key(directory, b)) <==> LexLe(a, b)
  {
    assert Key(directory, a) == (directory + "/") + a;
    assert Key(directory, b) == (directory + "/") + b;
    LexLeCommonPrefix(directory + "/", a, b);
  }

  /** Within one directory the key determines the file name. */
  lemma KeyInjective(directory: string, a: string, b: string)
    ensures Key(directory, a) == Key(directory, b) <==> a == b
  {
    assert a == Key(directory, a)[|directory| + 1..];
    assert b == Key(directory, b)[|directory| + 1..];
  }
}
