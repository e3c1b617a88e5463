/**
  The shape shared by the two `build_mapping` functions: every file name
  yields a details record and an ordered list of averaging-group keys;
  the record is stored under the file name in `mapping` and appended to
  the list of every one of its groups in `average`, file by file in input
  order. A failing file (an exception in Python) aborts the whole build.
 */
module Membership {
  import opened Wrappers
  import opened PyText

  /** What one file contributes: its details and its group keys, in the order they are appended. */
  datatype Entry<T> = Entry(details: T, keys: seq<string>)

  /** The pair `(mapping, average)` that `build_mapping` returns. */
  datatype Mapping<T> = Mapping(mapping: map<string, T>, average: map<string, seq<T>>)

  /** The list stored under k, or the empty list when k has no entry yet. */
  function Get<T>(avg: map<string, seq<T>>, k: string): seq<T>
  {
    if k in avg then avg[k] else []
  }

  /** The loop over `membership`: create the list on first use, append to it afterwards. */
  function AddTo<T>(avg: map<string, seq<T>>, keys: seq<string>, d: T): map<string, seq<T>>
  {
    if keys == [] then avg
    else
      var a := AddTo(avg, keys[..|keys| - 1], d);
      var k := keys[|keys| - 1];
      a[k := Get(a, k) + [d]]
  }

  /** Over distinct keys, each group of the file gets d appended once and every other group is untouched. */
  lemma {:induction false} AddToAt<T>(avg: map<string, seq<T>>, keys: seq<string>, d: T, k: string)
    requires Distinct(keys)
    ensures k in AddTo(avg, keys, d) <==> k in avg || k in keys
    ensures Get(AddTo(avg, keys, d), k) == Get(avg, k) + (if k in keys then [d] else [])
  {
    if keys != [] {
      var init := keys[..|keys| - 1];
      assert Distinct(init);
      assert keys == init + [keys[|keys| - 1]];
      assert keys[|keys| - 1] !in init;
      AddToAt(avg, init, d, k);
    }
  }

  /** The whole loop over `files`, with the first failing file's error. */
  function Build<T, E>(files: seq<string>, entry: string -> Result<Entry<T>, E>): Result<Mapping<T>, E>
  {
    if files == [] then Ok(Mapping(map[], map[]))
    else
      match Build(files[..|files| - 1], entry)
      case Err(e) => Err(e)
      case Ok(acc) =>
        var f := files[|files| - 1];
        match entry(f)
        case Err(e) => Err(e)
        case Ok(en) => Ok(Mapping(acc.mapping[f := en.details], AddTo(acc.average, en.keys, en.details)))
  }

  /** The build fails exactly when some file fails, and then with the error of the first one. */
  lemma {:induction false} BuildFails<T, E>(files: seq<string>, entry: string -> Result<Entry<T>, E>)
    ensures Build(files, entry).Err? <==> exists i :: 0 <= i < |files| && entry(files[i]).Err?
    ensures Build(files, entry).Err? ==>
      exists i :: 0 <= i < |files| && entry(files[i]) == Err(Build(files, entry).error) &&
        forall j :: 0 <= j < i ==> entry(files[j]).Ok?
  {
    if files != [] {
      var init := files[..|files| - 1];
      BuildFails(init, entry);
      assert forall i :: 0 <= i < |init| ==> init[i] == files[i];
    }
  }

  /** Once a prefix of the files fails, the whole build fails with the same error. */
  lemma {:induction false} BuildErrExtends<T, E>(files: seq<string>, n: nat, entry: string -> Result<Entry<T>, E>)
    requires n <= |files| && Build(files[..n], entry).Err?
    ensures Build(files, entry) == Build(files[..n], entry)
    decreases |files| - n
  {
    if n < |files| {
      var next := files[..n + 1];
      assert next[..n] == files[..n];
      assert Build(next, entry) == Build(files[..n], entry);
      BuildErrExtends(files, n + 1, entry);
    } else {
      assert files[..n] == files;
    }
  }

  /** The details of every file of `files` that list k among their groups, in input order. */
  function Members<T, E>(files: seq<string>, entry: string -> Result<Entry<T>, E>, k: string): seq<T>
    requires forall i :: 0 <= i < |files| ==> entry(files[i]).Ok?
  {
    if files == [] then []
    else
      var en := entry(files[|files| - 1]).value;
      Members(files[..|files| - 1], entry, k) + if k in en.keys then [en.details] else []
  }

  /**
    A successful build puts every file in `mapping` with its own details,
    and the list of every group is exactly the details of the files that
    belong to it, in input order, each once.
   */
  lemma {:induction false} BuildContents<T, E>(files: seq<string>, entry: string -> Result<Entry<T>, E>)
    requires Build(files, entry).Ok?
    requires forall f :: entry(f).Ok? ==> Distinct(entry(f).value.keys)
    ensures forall i :: 0 <= i < |files| ==> entry(files[i]).Ok?
    ensures forall f :: f in Build(files, entry).value.mapping <==> f in files
    ensures forall f :: f in Build(files, entry).value.mapping ==>
      Build(files, entry).value.mapping[f] == entry(f).value.details
    ensures forall k :: Get(Build(files, entry).value.average, k) == Members(files, entry, k)
    ensures forall k :: k in Build(files, entry).value.average <==>
      exists i :: 0 <= i < |files| && k in entry(files[i]).value.keys
  {
    BuildFails(files, entry);
    if files != [] {
      var init := files[..|files| - 1];
      var f := files[|files| - 1];
      assert files == init + [f];
      BuildContents(init, entry);
      var acc := Build(init, entry).value;
      var en := entry(f).value;
      forall k ensures Get(Build(files, entry).value.average, k) == Members(files, entry, k)
        && (k in Build(files, entry).value.average <==> exists i :: 0 <= i < |files| && k in entry(files[i]).value.keys)
      {
        AddToAt(acc.average, en.keys, en.details, k);
        if k in en.keys {
          assert k in entry(files[|files| - 1]).value.keys;
        }
        if exists i :: 0 <= i < |files| && k in entry(files[i]).value.keys {
          var i :| 0 <= i < |files| && k in entry(files[i]).value.keys;
          if i < |init| { assert init[i] == files[i]; }
        }
      }
    }
  }

  /** A group key `a/b/c`. */
  function Key(a: string, b: string, c: string): string { a + "/" + b + "/" + c }

  lemma KeyInjective(a1: string, b1: string, c1: string, a2: string, b2: string, c2: string)
    requires '/' !in a1 && '/' !in a2 && '/' !in b1 && '/' !in b2
    requires Key(a1, b1, c1) == Key(a2, b2, c2)
    ensures a1 == a2 && b1 == b2 && c1 == c2
  {
    assert Key(a1, b1, c1) == a1 + "/" + (b1 + "/" + c1);
    assert Key(a2, b2, c2) == a2 + "/" + (b2 + "/" + c2);
    SplitUnique(a1, b1 + "/" + c1, a2, b2 + "/" + c2);
    SplitUnique(b1, c1, b2, c2);
  }

  /** The two 5-day keys of each window day, in window order; s5 is the segment after the day. */
  function WindowKeys(others: seq<string>, s5: string): (ks: seq<string>)
    ensures |ks| == 2 * |others|
  {
    if others == [] then []
    else WindowKeys(others[..|others| - 1], s5) + [Key("5day", others[|others| - 1], "all"), Key("5day", others[|others| - 1], s5)]
  }

  /** The 14 keys (for a window of five days) of one photo: its day, its month and its 5-day windows. */
  function GroupKeys(day: string, month: string, period: string, others: seq<string>, s5: string): (ks: seq<string>)
    ensures |ks| == 4 + 2 * |others|
  {
    [Key("day", day, "all"), Key("day", day, period), Key("month", month, "all"), Key("month", month, period)]
      + WindowKeys(others, s5)
  }

  /** One more window day adds its two keys at the end. */
  lemma GroupKeysSnoc(day: string, month: string, period: string, others: seq<string>, o: string, s5: string)
    ensures GroupKeys(day, month, period, others + [o], s5) ==
      GroupKeys(day, month, period, others, s5) + [Key("5day", o, "all"), Key("5day", o, s5)]
  {
    assert (others + [o])[..|others|] == others;
  }

  /** The two keys of day j of the window: `5day/<day j>/all`, then `5day/<day j>/<period>`. */
  lemma {:induction false} WindowPair(others: seq<string>, s5: string, j: nat)
    requires j < |others|
    ensures WindowKeys(others, s5)[2 * j] == Key("5day", others[j], "all")
    ensures WindowKeys(others, s5)[2 * j + 1] == Key("5day", others[j], s5)
  {
    var init := others[..|others| - 1];
    if j < |init| {
      WindowPair(init, s5, j);
      assert init[j] == others[j];
    }
  }

  predicate AllSegments(s: seq<string>) { forall i :: 0 <= i < |s| ==> Segment(s[i]) }

  /** The group keys of one photo are pairwise different: the details go to each group once. */
  lemma GroupKeysDistinct(day: string, month: string, period: string, others: seq<string>, s5: string)
    requires '/' !in day && '/' !in month && AllSegments(others) && Distinct(others)
    requires period != "all" && s5 != "all"
    ensures Distinct(GroupKeys(day, month, period, others, s5))
  {
    var ks := GroupKeys(day, month, period, others, s5);
    forall i, j | 0 <= i < j < |ks| ensures ks[i] != ks[j] {
      var (a1, b1, c1) := TripleAt(day, month, period, others, s5, i);
      var (a2, b2, c2) := TripleAt(day, month, period, others, s5, j);
      if ks[i] == ks[j] {
        KeyInjective(a1, b1, c1, a2, b2, c2);
      }
    }
  }

  /** The segments of the key at position n of GroupKeys. */
  function TripleAt(day: string, month: string, period: string, others: seq<string>, s5: string, n: nat): (t: (string, string, string))
    requires n < 4 + 2 * |others|
    ensures GroupKeys(day, month, period, others, s5)[n] == Key(t.0, t.1, t.2)
  {
    if n < 4 then
      [("day", day, "all"), ("day", day, period), ("month", month, "all"), ("month", month, period)][n]
    else
      var j := (n - 4) / 2;
      WindowPair(others, s5, j);
      ("5day", others[j], if n % 2 == 0 then "all" else s5)
  }
}
