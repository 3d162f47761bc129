// The `key=value;key=value` grammar of the location hash (the external key
// parser) and the change-list filter that is read from and written to the same
// string. Both filter classes of the analytics library (the normalised and the
// raw change-list filter) are represented by one Filter record whose keys are
// those the hash protocol names.
module Keys {
  import opened Wrappers
  import opened JsText

  /**
   * One `;`-separated segment read as a pair: the key is the text before the
   * first '=' lower-cased, the value the text after it. A segment without '='
   * carries no pair.
   */
  function Entry(seg: string): (r: Option<(string, string)>)
    ensures r.None? <==> '=' !in seg
    ensures r.Some? ==> ';' in seg || ';' !in r.value.1
  {
    match IndexOf(seg, '=')
    case None => None
    case Some(i) => Some((Lower(seg[..i]), seg[i + 1..]))
  }

  function Apply(m: map<string, string>, seg: string): map<string, string>
  {
    match Entry(seg)
    case None => m
    case Some(kv) => m[kv.0 := kv.1]
  }

  function Fold(m: map<string, string>, segs: seq<string>): map<string, string>
    decreases segs
  {
    if segs == [] then m else Fold(Apply(m, segs[0]), segs[1..])
  }

  /** The dictionary of a hash string; a later key overrides an earlier one. */
  function KeyParse(s: string): map<string, string>
  {
    Fold(map[], Split(s, ';'))
  }

  /** A key as this code writes it: non-empty, lower-case letters only. */
  predicate IsKey(k: string)
  {
    |k| > 0 && forall i :: 0 <= i < |k| ==> 'a' <= k[i] <= 'z'
  }

  function Pair(k: string, v: string): string
  {
    k + "=" + v
  }

  lemma EntryOfPair(k: string, v: string)
    requires IsKey(k)
    ensures Entry(Pair(k, v)) == Some((k, v))
  {
    var seg := Pair(k, v);
    assert seg[..|k|] == k && seg[|k|] == '=' && seg[|k| + 1..] == v;
    assert forall j :: 0 <= j < |k| ==> seg[j] == k[j] && k[j] != '=';
    assert seg[..|k|] == k;
    IndexOfFirst(seg, '=', |k|);
    assert Lower(k) == k;
  }

  lemma {:induction false} IndexOfFirst(s: string, c: char, j: nat)
    requires j < |s| && s[j] == c && c !in s[..j]
    ensures IndexOf(s, c) == Some(j)
  {
    if j > 0 {
      assert s[0] in s[..j];
      assert s[1..][..j - 1] == s[1..j];
      assert forall x :: x in s[1..j] ==> x in s[..j];
      IndexOfFirst(s[1..], c, j - 1);
    }
  }

  lemma {:induction false} FoldAppend(m: map<string, string>, a: seq<string>, b: seq<string>)
    ensures Fold(m, a + b) == Fold(Fold(m, a), b)
    decreases a
  {
    if a == [] {
      assert a + b == b;
    } else {
      FoldAppend(Apply(m, a[0]), a[1..], b);
      assert (a + b)[0] == a[0] && (a + b)[1..] == a[1..] + b;
    }
  }

  /** Segments that all lack ';' give a dictionary whose values all lack ';'. */
  lemma {:induction false} FoldValuesNoSemicolon(m: map<string, string>, segs: seq<string>)
    requires forall k :: k in m ==> ';' !in m[k]
    requires forall i :: 0 <= i < |segs| ==> ';' !in segs[i]
    ensures forall k :: k in Fold(m, segs) ==> ';' !in Fold(m, segs)[k]
    decreases segs
  {
    if segs != [] {
      FoldValuesNoSemicolon(Apply(m, segs[0]), segs[1..]);
    }
  }

  lemma KeyParseValuesNoSemicolon(s: string)
    ensures forall k :: k in KeyParse(s) ==> ';' !in KeyParse(s)[k]
  {
    FoldValuesNoSemicolon(map[], Split(s, ';'));
  }

  /** The `key=value` segments of the keys whose value is present, in key order. */
  function Present(keys: seq<string>, vals: seq<Option<string>>): seq<string>
    requires |keys| == |vals|
  {
    if keys == [] then []
    else (if vals[0].Some? then [Pair(keys[0], vals[0].value)] else []) + Present(keys[1..], vals[1..])
  }

  lemma {:induction false} PresentNoSemicolon(keys: seq<string>, vals: seq<Option<string>>)
    requires |keys| == |vals|
    requires forall i :: 0 <= i < |keys| ==> IsKey(keys[i])
    requires forall i :: 0 <= i < |vals| ==> vals[i].Some? ==> ';' !in vals[i].value
    ensures forall j :: 0 <= j < |Present(keys, vals)| ==> ';' !in Present(keys, vals)[j]
  {
    if keys != [] {
      PresentNoSemicolon(keys[1..], vals[1..]);
      if vals[0].Some? {
        var p := Pair(keys[0], vals[0].value);
        assert p == keys[0] + "=" + vals[0].value;
        assert ';' !in keys[0];
      }
    }
  }

  /** Reading back the present segments of distinct keys restores each present value. */
  lemma {:induction false} FoldPresent(m: map<string, string>, keys: seq<string>, vals: seq<Option<string>>)
    requires |keys| == |vals|
    requires forall i :: 0 <= i < |keys| ==> IsKey(keys[i])
    requires forall i, j :: 0 <= i < j < |keys| ==> keys[i] != keys[j]
    ensures forall i :: 0 <= i < |keys| ==>
      Get(Fold(m, Present(keys, vals)), keys[i]) == (if vals[i].Some? then vals[i] else Get(m, keys[i]))
    ensures forall k :: k !in keys ==> Get(Fold(m, Present(keys, vals)), k) == Get(m, k)
    decreases keys
  {
    if keys != [] {
      var head: seq<string> := if vals[0].Some? then [Pair(keys[0], vals[0].value)] else [];
      var m1 := Fold(m, head);
      if vals[0].Some? {
        EntryOfPair(keys[0], vals[0].value);
        assert Fold(m, head) == Fold(Apply(m, head[0]), head[1..]);
        assert m1 == m[keys[0] := vals[0].value];
      }
      FoldAppend(m, head, Present(keys[1..], vals[1..]));
      FoldPresent(m1, keys[1..], vals[1..]);
      var r := Fold(m, Present(keys, vals));
      forall i | 0 <= i < |keys|
        ensures Get(r, keys[i]) == (if vals[i].Some? then vals[i] else Get(m, keys[i]))
      {
        if i == 0 {
          assert keys[0] !in keys[1..];
        } else {
          assert keys[1..][i - 1] == keys[i];
        }
      }
    }
  }

  /** The change-list filter: one optional value per key of the hash protocol. */
  datatype Filter = Filter(
    user: Option<string>,
    ver: Option<string>,
    verEnd: Option<string>,
    dateUtcStart: Option<string>,
    dateUtcEnd: Option<string>,
    day: Option<string>,
    app: Option<string>)

  const NoFilter := Filter(None, None, None, None, None, None, None)

  const FilterKeys: seq<string> := ["user", "ver", "verend", "dateutcstart", "dateutcend", "day", "app"]

  function FilterValues(f: Filter): seq<Option<string>>
  {
    [f.user, f.ver, f.verEnd, f.dateUtcStart, f.dateUtcEnd, f.day, f.app]
  }

  predicate Token(v: Option<string>)
  {
    v.Some? ==> ';' !in v.value
  }

  /** A filter whose values survive the `;`-separated encoding. */
  predicate WellFormed(f: Filter)
  {
    Token(f.user) && Token(f.ver) && Token(f.verEnd) && Token(f.dateUtcStart)
    && Token(f.dateUtcEnd) && Token(f.day) && Token(f.app)
  }

  /** filter.toString(): the present `key=value` pairs joined by ';'. */
  function FilterToString(f: Filter): string
  {
    Join(Present(FilterKeys, FilterValues(f)), ';')
  }

  /** Filter.parse(s) reads its keys from the dictionary of the whole string. */
  function FilterFromKeys(m: map<string, string>): (f: Filter)
    ensures forall i :: 0 <= i < |FilterKeys| ==> FilterValues(f)[i] == Get(m, FilterKeys[i])
  {
    Filter(Get(m, "user"), Get(m, "ver"), Get(m, "verend"), Get(m, "dateutcstart"),
           Get(m, "dateutcend"), Get(m, "day"), Get(m, "app"))
  }

  function SetUser(f: Filter, user: string): Filter
  {
    f.(user := Some(user))
  }

  /** setTimeRange, given the ISO strings of both ends of the range. */
  function SetTimeRange(f: Filter, startIso: string, endIso: string): Filter
  {
    f.(dateUtcStart := Some(startIso), dateUtcEnd := Some(endIso))
  }

  lemma FilterKeysAreKeys()
    ensures forall i :: 0 <= i < |FilterKeys| ==> IsKey(FilterKeys[i])
    ensures forall i, j :: 0 <= i < j < |FilterKeys| ==> FilterKeys[i] != FilterKeys[j]
  {
  }

  /** The segments of a tagged hash `tag=value;` + filter string. */
  lemma SplitTagged(tag: string, value: string, f: Filter)
    requires IsKey(tag) && ';' !in value && WellFormed(f)
    ensures var present := Present(FilterKeys, FilterValues(f));
      Split(Pair(tag, value) + ";" + FilterToString(f), ';')
        == [Pair(tag, value)] + (if present == [] then [""] else present)
  {
    var head := Pair(tag, value);
    var present := Present(FilterKeys, FilterValues(f));
    var tail: seq<string> := if present == [] then [""] else present;
    FilterKeysAreKeys();
    PresentNoSemicolon(FilterKeys, FilterValues(f));
    assert ';' !in tag;
    assert ';' !in head;
    JoinCons(head, tail, ';');
    assert Join(tail, ';') == FilterToString(f);
    SplitJoin([head] + tail, ';');
  }

  /** The dictionary of a tagged hash: the tag's pair, then the filter's segments. */
  lemma KeyParseTaggedFold(tag: string, value: string, f: Filter)
    requires IsKey(tag) && ';' !in value && WellFormed(f)
    ensures var present := Present(FilterKeys, FilterValues(f));
      KeyParse(Pair(tag, value) + ";" + FilterToString(f))
        == Fold(map[tag := value], if present == [] then [""] else present)
  {
    var head := Pair(tag, value);
    var present := Present(FilterKeys, FilterValues(f));
    var tail: seq<string> := if present == [] then [""] else present;
    SplitTagged(tag, value, f);
    EntryOfPair(tag, value);
    assert Fold(map[], [head]) == Fold(Apply(map[], head), []);
    FoldAppend(map[], [head], tail);
  }

  lemma FoldNoFilter(m0: map<string, string>, f: Filter)
    requires forall i :: 0 <= i < |FilterKeys| ==> FilterKeys[i] !in m0
    requires Present(FilterKeys, FilterValues(f)) == []
    ensures FilterFromKeys(Fold(m0, [""])) == f && Fold(m0, [""]) == m0
  {
    assert Fold(m0, [""]) == Fold(Apply(m0, ""), []);
    NoPresentMeansNoFilter(f);
    assert FilterValues(FilterFromKeys(m0)) == FilterValues(NoFilter);
    FilterValuesInjective(FilterFromKeys(m0), NoFilter);
  }

  lemma FoldSomeFilter(m0: map<string, string>, f: Filter)
    requires forall i :: 0 <= i < |FilterKeys| ==> FilterKeys[i] !in m0
    ensures var r := Fold(m0, Present(FilterKeys, FilterValues(f)));
      FilterFromKeys(r) == f && forall k :: k !in FilterKeys ==> Get(r, k) == Get(m0, k)
  {
    var r := Fold(m0, Present(FilterKeys, FilterValues(f)));
    FilterKeysAreKeys();
    FoldPresent(m0, FilterKeys, FilterValues(f));
    var g := FilterFromKeys(r);
    forall i | 0 <= i < |FilterKeys|
      ensures FilterValues(g)[i] == FilterValues(f)[i]
    {
      assert Get(m0, FilterKeys[i]) == None;
    }
    FilterValuesInjective(g, f);
  }

  /** Over a dictionary with no filter key, the filter's segments add exactly the filter. */
  lemma FoldFilter(m0: map<string, string>, f: Filter)
    requires forall i :: 0 <= i < |FilterKeys| ==> FilterKeys[i] !in m0
    ensures var present := Present(FilterKeys, FilterValues(f));
      var r := Fold(m0, if present == [] then [""] else present);
      FilterFromKeys(r) == f && forall k :: k !in FilterKeys ==> Get(r, k) == Get(m0, k)
  {
    if Present(FilterKeys, FilterValues(f)) == [] {
      FoldNoFilter(m0, f);
    } else {
      FoldSomeFilter(m0, f);
    }
  }

  /**
   * A tagged hash `tag=value;` followed by a filter's own string parses back to
   * the tag's value and to the same filter.
   */
  lemma KeyParseTagged(tag: string, value: string, f: Filter)
    requires IsKey(tag) && tag !in FilterKeys && ';' !in value && WellFormed(f)
    ensures Get(KeyParse(Pair(tag, value) + ";" + FilterToString(f)), tag) == Some(value)
    ensures FilterFromKeys(KeyParse(Pair(tag, value) + ";" + FilterToString(f))) == f
  {
    KeyParseTaggedFold(tag, value, f);
    FoldFilter(map[tag := value], f);
  }

  lemma FilterValuesInjective(f: Filter, g: Filter)
    requires forall i :: 0 <= i < 7 ==> FilterValues(f)[i] == FilterValues(g)[i]
    ensures f == g
  {
    assert FilterValues(f)[0] == FilterValues(g)[0] && FilterValues(f)[1] == FilterValues(g)[1];
    assert FilterValues(f)[2] == FilterValues(g)[2] && FilterValues(f)[3] == FilterValues(g)[3];
    assert FilterValues(f)[4] == FilterValues(g)[4] && FilterValues(f)[5] == FilterValues(g)[5];
    assert FilterValues(f)[6] == FilterValues(g)[6];
  }

  lemma {:induction false} NothingPresent(keys: seq<string>, vals: seq<Option<string>>)
    requires |keys| == |vals| && Present(keys, vals) == []
    ensures forall i :: 0 <= i < |vals| ==> vals[i].None?
    decreases keys
  {
    if keys != [] {
      NothingPresent(keys[1..], vals[1..]);
      forall i | 1 <= i < |vals| ensures vals[i].None? {
        assert vals[1..][i - 1] == vals[i];
      }
    }
  }

  lemma NoPresentMeansNoFilter(f: Filter)
    requires Present(FilterKeys, FilterValues(f)) == []
    ensures f == NoFilter
  {
    NothingPresent(FilterKeys, FilterValues(f));
    FilterValuesInjective(f, NoFilter);
  }

  /** A single `tag=value` segment parses to exactly that pair. */
  lemma KeyParseSingle(tag: string, value: string)
    requires IsKey(tag) && ';' !in value
    ensures KeyParse(Pair(tag, value)) == map[tag := value]
  {
    assert ';' !in Pair(tag, value);
    SplitJoin([Pair(tag, value)], ';');
    EntryOfPair(tag, value);
    assert Fold(map[], [Pair(tag, value)]) == Fold(Apply(map[], Pair(tag, value)), []);
  }
}
