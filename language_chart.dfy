/**
 * The languages pie chart: every language name is hashed to one of ten
 * palette colours, remembered in a module-level dictionary, and the chart
 * shows the five languages with the largest share of the repository's bytes.
 */
module LanguageChart {
  import opened Js

  // ---------------------------------------------------------------------------
  // Colours

  const Colors: seq<string> := [
    "#0088FE", "#00C49F", "#FFBB28", "#FF8042", "#AF19FF",
    "#FF1919", "#FF4519", "#FF7119", "#FF9D19", "#FFC919"
  ]

  function Abs(x: int): (a: nat)
    ensures a == x || a == -x
  {
    if x < 0 then -x else x
  }

  /**
   * One turn of the loop: `hash << 5` works on the 32-bit value of `hash`
   * and gives a 32-bit result, while `- hash` and `+ charCode` are plain
   * number arithmetic on the unwrapped `hash`.
   */
  function HashStep(hash: int, unit: int): int {
    unit + (ToInt32(ToInt32(hash) * 32) - hash)
  }

  /** The hash after the loop has taken in the code units `u`, starting from 0. */
  function Hash(u: seq<int>): int {
    if u == [] then 0 else HashStep(Hash(u[..|u| - 1]), u[|u| - 1])
  }

  /** `Math.abs(hash) % COLORS.length`. */
  function ColorIndex(lang: string): (i: nat)
    ensures i < |Colors|
  {
    Abs(Hash(CodeUnits(lang))) % |Colors|
  }

  /** The colour a language is given when it is not cached yet. */
  function ColorOf(lang: string): (c: string)
    ensures c in Colors
    ensures c == Colors[ColorIndex(lang)]
  {
    Colors[ColorIndex(lang)]
  }

  const TwoTo53: int := 0x20_0000_0000_0000
  const StepBound: int := TwoTo31 + 0xFFFF

  /** Each turn moves the hash by less than 2^31 + 2^16. */
  lemma {:induction false} HashBound(u: seq<int>)
    requires forall k :: 0 <= k < |u| ==> 0 <= u[k] < 0x1_0000
    ensures Abs(Hash(u)) <= |u| * StepBound
  {
    if u != [] {
      var init := u[..|u| - 1];
      HashBound(init);
      var h := Hash(init);
      var shifted := ToInt32(ToInt32(h) * 32);
      assert Abs(shifted) <= TwoTo31;
      assert Abs(Hash(u)) <= u[|u| - 1] + Abs(shifted) + Abs(h);
      assert (|u| - 1) * StepBound + StepBound == |u| * StepBound;
    }
  }

  /**
   * For names of up to four million code units the hash stays below 2^53 in
   * magnitude, so the double the code computes with holds it exactly and the
   * model's unbounded integers agree with it.
   */
  lemma HashExact(lang: string)
    requires |CodeUnits(lang)| <= 4000000
    ensures -TwoTo53 < Hash(CodeUnits(lang)) < TwoTo53
  {
    var u := CodeUnits(lang);
    HashBound(u);
    assert |u| * StepBound <= 4000000 * StepBound;
  }

  /** The empty name never enters the loop: hash 0, the first colour. */
  lemma EmptyNameColor()
    ensures Hash(CodeUnits("")) == 0 && ColorOf("") == Colors[0]
  {
  }

  /** One-character names: the hash is the code unit itself. */
  lemma SingleUnitColor(c: char)
    requires (c as int) < 0x1_0000
    ensures Hash(CodeUnits([c])) == c as int
    ensures ColorOf([c]) == Colors[(c as int) % 10]
  {
    assert CodeUnits([c]) == [c as int] + CodeUnits([]);
    assert CodeUnits([c])[..0] == [];
  }

  /** "C" has hash 67 and "Go" has hash 71 * 31 + 111 = 2312. */
  lemma ExampleColors()
    ensures ColorOf("C") == "#FF7119"
    ensures Hash([71, 111]) == 2312 && ColorOf("Go") == "#FFBB28"
  {
    SingleUnitColor('C');
    assert [71, 111][..1] == [71];
    assert [71][..0] == [];
    assert CodeUnits("Go") == [71, 111];
  }

  // ---------------------------------------------------------------------------
  // The cache, as written

  /**
   * The names `ICONS[lang]` finds on `Object.prototype` when `ICONS` has no
   * own entry; each is a function or an object, so each is truthy.
   */
  const PrototypeMembers: set<string> := {
    "constructor", "hasOwnProperty", "isPrototypeOf", "propertyIsEnumerable",
    "toString", "toLocaleString", "valueOf", "__proto__",
    "__defineGetter__", "__defineSetter__", "__lookupGetter__", "__lookupSetter__"
  }

  /** What `getColor` hands back: a string, or the value of an inherited member. */
  datatype IconLookup = Color(color: string) | Member(name: string)

  /**
   * `getColor` on the plain object literal `{}` as the code declares it: the
   * lookup also sees the members `{}` inherits, and returns one of those
   * before it ever hashes. The result is the value returned and the new cache.
   */
  function GetColorAsWritten(icons: map<string, string>, lang: string): (r: (IconLookup, map<string, string>))
    ensures lang in icons && icons[lang] != "" ==> r == (Color(icons[lang]), icons)
    ensures lang !in icons && lang in PrototypeMembers ==> r == (Member(lang), icons)
  {
    if lang in icons && icons[lang] != "" then (Color(icons[lang]), icons)
    else if lang !in icons && lang in PrototypeMembers then (Member(lang), icons)
    else (Color(ColorOf(lang)), icons[lang := ColorOf(lang)])
  }

  /** A language called "toString" is not given a palette colour. */
  lemma AsWrittenToString()
    ensures GetColorAsWritten(map[], "toString").0 == Member("toString")
    ensures !GetColorAsWritten(map[], "toString").0.Color?
  {
  }

  /** For every other name the code does what it evidently means to. */
  lemma AsWrittenOtherNames(icons: map<string, string>, lang: string)
    requires forall k :: k in icons ==> icons[k] == ColorOf(k)
    requires lang !in PrototypeMembers
    ensures GetColorAsWritten(icons, lang) == (Color(ColorOf(lang)), icons[lang := ColorOf(lang)])
  {
    if lang in icons {
      assert icons[lang] in Colors;
      assert icons[lang := ColorOf(lang)] == icons;
    }
  }

  // ---------------------------------------------------------------------------
  // The cache, corrected

  /**
   * `ICONS` with own entries only (as `Object.create(null)` or a `Map` would
   * give), and `getColor` over it.
   */
  class ColorCache {
    var icons: map<string, string>

    /** Every cached colour is the one the hash picks for its name. */
    ghost predicate Valid()
      reads this
    {
      forall k :: k in icons ==> icons[k] == ColorOf(k)
    }

    constructor ()
      ensures icons == map[] && Valid()
    {
      icons := map[];
    }

    /** The loop of `getColor`, over the UTF-16 code units of `lang`. */
    static method ComputeHash(lang: string) returns (hash: int)
      ensures hash == Hash(CodeUnits(lang))
    {
      var units := CodeUnits(lang);
      hash := 0;
      for i := 0 to |units|
        invariant hash == Hash(units[..i])
      {
        assert units[..i + 1][..i] == units[..i];
        hash := units[i] + (ToInt32(ToInt32(hash) * 32) - hash);
      }
      assert units[..|units|] == units;
    }

    /**
     * `getColor(lang)`: the cached colour if there is one, else the hashed
     * colour, which is then cached. Only the entry for `lang` can change.
     */
    method GetColor(lang: string) returns (color: string)
      requires Valid()
      modifies this
      ensures Valid()
      ensures color == ColorOf(lang) && color in Colors
      ensures icons == old(icons)[lang := color]
      ensures lang in old(icons) ==> icons == old(icons)
    {
      if lang in icons && icons[lang] != "" {
        color := icons[lang];
        assert icons[lang := color] == icons;
        return;
      }
      var hash := ComputeHash(lang);
      color := Colors[Abs(hash) % |Colors|];
      icons := icons[lang := color];
    }

    /** Asking twice gives the same colour, and the second call changes nothing. */
    method GetColorTwice(lang: string) returns (first: string, second: string)
      requires Valid()
      modifies this
      ensures Valid() && first == second == ColorOf(lang)
      ensures icons == old(icons)[lang := first]
    {
      first := GetColor(lang);
      ghost var between := icons;
      second := GetColor(lang);
      assert icons == between;
    }

    /** The `Cell` fills of the chart: one `getColor` per slice, in order. */
    method CellFills(names: seq<string>) returns (fills: seq<string>)
      requires Valid()
      modifies this
      ensures Valid()
      ensures |fills| == |names| && forall i :: 0 <= i < |names| ==> fills[i] == ColorOf(names[i])
      ensures forall k :: k in icons <==> k in old(icons) || k in names
    {
      fills := [];
      for i := 0 to |names|
        invariant Valid()
        invariant |fills| == i && forall j :: 0 <= j < i ==> fills[j] == ColorOf(names[j])
        invariant forall k :: k in icons <==> k in old(icons) || k in names[..i]
      {
        ghost var before := icons;
        var c := GetColor(names[i]);
        fills := fills + [c];
        assert names[..i + 1] == names[..i] + [names[i]];
        assert forall k :: k in icons <==> k in before || k == names[i];
      }
      assert names[..|names|] == names;
    }
  }

  // ---------------------------------------------------------------------------
  // The chart data

  /** One entry of `chartData`: a language and its share of the bytes. */
  datatype Slice = Slice(name: string, share: real)

  /**
   * The order `Object.entries` lists the map in: every key once. It is an
   * input, since it comes from the JSON text.
   */
  predicate IsKeyOrder(data: map<string, nat>, order: seq<string>) {
    && (forall i :: 0 <= i < |order| ==> order[i] in data)
    && (forall k :: k in data ==> k in order)
    && (forall i, j :: 0 <= i < j < |order| ==> order[i] != order[j])
  }

  /** `Object.values(data).reduce((sum, val) => sum + val, 0)` over the listed keys. */
  function Total(data: map<string, nat>, order: seq<string>): (t: nat)
    requires forall i :: 0 <= i < |order| ==> order[i] in data
    ensures t == 0 ==> forall i :: 0 <= i < |order| ==> data[order[i]] == 0
  {
    if order == [] then 0 else Total(data, order[..|order| - 1]) + data[order[|order| - 1]]
  }

  /**
   * `value / total`. With a zero total the code divides 0 by 0 and gets NaN,
   * which its comparator treats as a tie; 0.0 is a tie too.
   */
  function Share(value: nat, total: nat): real {
    if total == 0 then 0.0 else value as real / total as real
  }

  /** With a positive total, shares are ordered as the byte counts are. */
  lemma ShareOrder(x: nat, y: nat, total: nat)
    requires total > 0
    ensures Share(x, total) >= Share(y, total) <==> x >= y
  {
    var t := total as real;
    assert Share(x, total) * t == x as real;
    assert Share(y, total) * t == y as real;
    if Share(x, total) >= Share(y, total) {
      assert Share(x, total) * t >= Share(y, total) * t;
    }
    if x >= y {
      assert (x as real - y as real) / t >= 0.0;
    }
  }

  /** The `map` step: each entry with its share of the total. */
  function Slices(data: map<string, nat>, order: seq<string>, total: nat): (s: seq<Slice>)
    requires forall i :: 0 <= i < |order| ==> order[i] in data
    ensures |s| == |order|
    ensures forall i :: 0 <= i < |order| ==> s[i] == Slice(order[i], Share(data[order[i]], total))
  {
    if order == [] then []
    else [Slice(order[0], Share(data[order[0]], total))] + Slices(data, order[1..], total)
  }

  predicate SortedDesc(s: seq<Slice>) {
    forall i, j :: 0 <= i < j < |s| ==> s[i].share >= s[j].share
  }

  /** Place `x` after the leading slices whose share is at least as large. */
  function Insert(x: Slice, s: seq<Slice>): (r: seq<Slice>)
    ensures multiset(r) == multiset(s) + multiset{x}
    ensures |r| == |s| + 1
    ensures r[0] == x || (s != [] && r[0] == s[0])
  {
    if s == [] then [x]
    else if s[0].share >= x.share then
      assert s == [s[0]] + s[1..];
      [s[0]] + Insert(x, s[1..])
    else
      [x] + s
  }

  /** Inserting into a sorted list keeps it sorted. */
  lemma {:induction false} InsertSorted(x: Slice, s: seq<Slice>)
    requires SortedDesc(s)
    ensures SortedDesc(Insert(x, s))
  {
    if s != [] && s[0].share >= x.share {
      var rest := Insert(x, s[1..]);
      InsertSorted(x, s[1..]);
      assert rest[0] == x || rest[0] == s[1];
      ConsSorted(s[0], rest);
    } else if s != [] {
      ConsSorted(x, s);
    }
  }

  /** A slice at least as large as the head of a sorted list can go in front of it. */
  lemma ConsSorted(y: Slice, s: seq<Slice>)
    requires SortedDesc(s) && (s != [] ==> y.share >= s[0].share)
    ensures SortedDesc([y] + s)
  {
    var r := [y] + s;
    forall i, j | 0 <= i < j < |r|
      ensures r[i].share >= r[j].share
    {
      assert r[j] == s[j - 1];
      if i > 0 {
        assert r[i] == s[i - 1];
      } else {
        assert s[0].share >= s[j - 1].share;
      }
    }
  }

  /**
   * `sort((a, b) => b.value - a.value)`: a stable sort, largest share first.
   * It is written as an insertion sort, which is stable as the standard's
   * sort is.
   */
  function SortByShare(s: seq<Slice>): (r: seq<Slice>)
    ensures SortedDesc(r)
    ensures multiset(r) == multiset(s)
    ensures |r| == |s|
  {
    if s == [] then []
    else
      assert s == s[..|s| - 1] + [s[|s| - 1]];
      InsertSorted(s[|s| - 1], SortByShare(s[..|s| - 1]));
      Insert(s[|s| - 1], SortByShare(s[..|s| - 1]))
  }

  /** The slices of `s` whose share is `v`, in order. */
  function WithShare(s: seq<Slice>, v: real): seq<Slice> {
    if s == [] then []
    else (if s[0].share == v then [s[0]] else []) + WithShare(s[1..], v)
  }

  lemma {:induction false} WithShareConcat(a: seq<Slice>, b: seq<Slice>, v: real)
    ensures WithShare(a + b, v) == WithShare(a, v) + WithShare(b, v)
  {
    if a == [] {
      assert a + b == b;
    } else {
      var head := if a[0].share == v then [a[0]] else [];
      assert (a + b)[0] == a[0];
      assert (a + b)[1..] == a[1..] + b;
      assert WithShare(a + b, v) == head + WithShare(a[1..] + b, v);
      assert WithShare(a, v) == head + WithShare(a[1..], v);
      WithShareConcat(a[1..], b, v);
    }
  }

  lemma {:induction false} WithShareNone(s: seq<Slice>, v: real)
    requires forall i :: 0 <= i < |s| ==> s[i].share != v
    ensures WithShare(s, v) == []
  {
    if s != [] {
      WithShareNone(s[1..], v);
    }
  }

  /** Inserting `x` puts it after every slice of the same share. */
  lemma {:induction false} InsertWithShare(x: Slice, s: seq<Slice>, v: real)
    requires SortedDesc(s)
    ensures WithShare(Insert(x, s), v) == WithShare(s, v) + (if x.share == v then [x] else [])
  {
    if s == [] {
      assert Insert(x, s) == [x];
      assert WithShare([x], v) == (if x.share == v then [x] else []) + WithShare([], v);
    } else if s[0].share >= x.share {
      InsertWithShare(x, s[1..], v);
      InsertPast(x, s, v);
    } else {
      InsertFront(x, s, v);
    }
  }

  /** Where `x` goes past the first slice, that slice stays in front. */
  lemma InsertUnfold(x: Slice, s: seq<Slice>)
    requires SortedDesc(s) && s != [] && s[0].share >= x.share
    ensures Insert(x, s) == [s[0]] + Insert(x, s[1..])
  {
  }

  /** Putting the same slice in front of two lists keeps what they have in common. */
  lemma WithShareCons(y: Slice, r: seq<Slice>, t: seq<Slice>, tie: seq<Slice>, v: real)
    requires WithShare(r, v) == WithShare(t, v) + tie
    ensures WithShare([y] + r, v) == WithShare([y] + t, v) + tie
  {
    var head := if y.share == v then [y] else [];
    assert ([y] + r)[1..] == r;
    assert ([y] + t)[1..] == t;
    assert WithShare([y] + r, v) == head + WithShare(r, v);
    assert WithShare([y] + t, v) == head + WithShare(t, v);
  }

  /** The step of `InsertWithShare` where `x` goes past the first slice. */
  lemma InsertPast(x: Slice, s: seq<Slice>, v: real)
    requires SortedDesc(s) && s != [] && s[0].share >= x.share
    requires WithShare(Insert(x, s[1..]), v) == WithShare(s[1..], v) + (if x.share == v then [x] else [])
    ensures WithShare(Insert(x, s), v) == WithShare(s, v) + (if x.share == v then [x] else [])
  {
    InsertUnfold(x, s);
    WithShareCons(s[0], Insert(x, s[1..]), s[1..], if x.share == v then [x] else [], v);
    assert [s[0]] + s[1..] == s;
  }

  /** The step of `InsertWithShare` where `x` goes in front. */
  lemma InsertFront(x: Slice, s: seq<Slice>, v: real)
    requires SortedDesc(s) && s != [] && s[0].share < x.share
    ensures WithShare(Insert(x, s), v) == WithShare(s, v) + (if x.share == v then [x] else [])
  {
    assert Insert(x, s) == [x] + s;
    WithShareConcat([x], s, v);
    assert WithShare([x], v) == (if x.share == v then [x] else []) + WithShare([], v);
    if x.share == v {
      WithShareNone(s, v);
    }
  }

  /** The sort is stable: slices of equal share keep their relative order. */
  lemma {:induction false} SortStable(s: seq<Slice>, v: real)
    ensures WithShare(SortByShare(s), v) == WithShare(s, v)
  {
    if s != [] {
      var init := s[..|s| - 1];
      var last := s[|s| - 1];
      assert s == init + [last];
      assert SortByShare(s) == Insert(last, SortByShare(init));
      SortStable(init, v);
      InsertWithShare(last, SortByShare(init), v);
      WithShareConcat(init, [last], v);
    }
  }

  const TopCount := 5

  function Min(a: int, b: int): int {
    if a <= b then a else b
  }

  /** `chartData`: the shares, largest first, cut to the top five. */
  function ChartData(data: map<string, nat>, order: seq<string>): (chart: seq<Slice>)
    requires IsKeyOrder(data, order)
    ensures |chart| == Min(TopCount, |order|)
    ensures SortedDesc(chart)
    ensures forall i :: 0 <= i < |chart| ==> chart[i].name in data
  {
    var sorted := SortByShare(Slices(data, order, Total(data, order)));
    SortedNames(data, order, Total(data, order));
    sorted[..Min(TopCount, |sorted|)]
  }

  /** Sorting the slices brings in no new language. */
  lemma SortedNames(data: map<string, nat>, order: seq<string>, total: nat)
    requires forall i :: 0 <= i < |order| ==> order[i] in data
    ensures forall i :: 0 <= i < |order| ==> SortByShare(Slices(data, order, total))[i].name in data
  {
    var slices := Slices(data, order, total);
    var sorted := SortByShare(slices);
    forall i | 0 <= i < |order|
      ensures sorted[i].name in data
    {
      assert sorted[i] in multiset(slices);
      var p :| 0 <= p < |slices| && slices[p] == sorted[i];
    }
  }

  /** The map's keys are listed once each, so the chart has min(5, number of languages) slices. */
  lemma ChartSize(data: map<string, nat>, order: seq<string>)
    requires IsKeyOrder(data, order)
    ensures |ChartData(data, order)| == Min(TopCount, |data|)
  {
    KeyOrderSize(data, order);
  }

  lemma {:induction false} KeyOrderSize(data: map<string, nat>, order: seq<string>)
    requires IsKeyOrder(data, order)
    ensures |order| == |data|
  {
    var keys := set i | 0 <= i < |order| :: order[i];
    assert keys == data.Keys;
    DistinctSize(order);
  }

  /** A sequence without repeats has as many elements as its set. */
  lemma {:induction false} DistinctSize(s: seq<string>)
    requires forall i, j :: 0 <= i < j < |s| ==> s[i] != s[j]
    ensures |set i | 0 <= i < |s| :: s[i]| == |s|
  {
    if s != [] {
      var init := s[..|s| - 1];
      DistinctSize(init);
      var a := set i | 0 <= i < |init| :: init[i];
      var b := set i | 0 <= i < |s| :: s[i];
      assert b == a + {s[|s| - 1]};
      assert s[|s| - 1] !in a;
    }
  }

  /** Each slice of the chart is a language with its own share. */
  lemma ChartSlices(data: map<string, nat>, order: seq<string>)
    requires IsKeyOrder(data, order)
    ensures forall i :: 0 <= i < |ChartData(data, order)| ==>
      ChartData(data, order)[i].share == Share(data[ChartData(data, order)[i].name], Total(data, order))
  {
    var slices := Slices(data, order, Total(data, order));
    var chart := ChartData(data, order);
    forall i | 0 <= i < |chart|
      ensures chart[i].share == Share(data[chart[i].name], Total(data, order))
    {
      assert chart[i] in multiset(SortByShare(slices));
      assert chart[i] in multiset(slices);
      var p :| 0 <= p < |slices| && slices[p] == chart[i];
    }
  }

  /** A slice of a sorted list whose language is not among its first `n` is no larger than any of them. */
  lemma SortedLeftOut(sorted: seq<Slice>, n: nat, x: Slice)
    requires SortedDesc(sorted) && n <= |sorted| && x in multiset(sorted)
    requires forall i :: 0 <= i < n ==> sorted[i].name != x.name
    ensures forall i :: 0 <= i < n ==> x.share <= sorted[i].share
  {
    var q :| 0 <= q < |sorted| && sorted[q] == x;
    assert q >= n;
  }

  /** The chart is the front of the sorted slices. */
  lemma ChartPrefix(data: map<string, nat>, order: seq<string>)
    requires IsKeyOrder(data, order)
    ensures var sorted := SortByShare(Slices(data, order, Total(data, order)));
      && |ChartData(data, order)| <= |sorted|
      && forall i :: 0 <= i < |ChartData(data, order)| ==> ChartData(data, order)[i] == sorted[i]
  {
  }

  /** Every listed language has its slice among the sorted slices. */
  lemma SortedHasSlice(data: map<string, nat>, order: seq<string>, k: string)
    requires IsKeyOrder(data, order) && k in data
    ensures Slice(k, Share(data[k], Total(data, order))) in multiset(SortByShare(Slices(data, order, Total(data, order))))
  {
    var slices := Slices(data, order, Total(data, order));
    var p :| 0 <= p < |order| && order[p] == k;
    assert slices[p] == Slice(k, Share(data[k], Total(data, order)));
    assert slices[p] in multiset(slices);
  }

  /**
   * The chart keeps the largest languages: any language left out has a share
   * no larger than any slice kept.
   */
  lemma ChartKeepsLargest(data: map<string, nat>, order: seq<string>, k: string)
    requires IsKeyOrder(data, order) && k in data
    requires forall i :: 0 <= i < |ChartData(data, order)| ==> ChartData(data, order)[i].name != k
    ensures forall i :: 0 <= i < |ChartData(data, order)| ==>
      Share(data[k], Total(data, order)) <= ChartData(data, order)[i].share
  {
    ChartPrefix(data, order);
    SortedHasSlice(data, order, k);
    SortedLeftOut(SortByShare(Slices(data, order, Total(data, order))), |ChartData(data, order)|,
                  Slice(k, Share(data[k], Total(data, order))));
  }

  /** With a positive total the chart lists languages by byte count, largest first. */
  lemma ChartByteOrder(data: map<string, nat>, order: seq<string>)
    requires IsKeyOrder(data, order) && Total(data, order) > 0
    ensures forall i, j :: 0 <= i < j < |ChartData(data, order)| ==>
      data[ChartData(data, order)[i].name] >= data[ChartData(data, order)[j].name]
  {
    var chart := ChartData(data, order);
    var total := Total(data, order);
    ChartSlices(data, order);
    forall i, j | 0 <= i < j < |chart|
      ensures data[chart[i].name] >= data[chart[j].name]
    {
      ShareOrder(data[chart[i].name], data[chart[j].name], total);
    }
  }

  /** When every count is 0 all shares tie, and the first five languages are kept in their listed order. */
  lemma ChartZeroTotal(data: map<string, nat>, order: seq<string>)
    requires IsKeyOrder(data, order) && Total(data, order) == 0
    ensures |ChartData(data, order)| == Min(TopCount, |order|)
    ensures forall i :: 0 <= i < |ChartData(data, order)| ==> ChartData(data, order)[i] == Slice(order[i], 0.0)
  {
    var slices := Slices(data, order, 0);
    var sorted := SortByShare(slices);
    assert ChartData(data, order) == sorted[..Min(TopCount, |sorted|)];
    SortKeepsTies(slices, 0.0);
  }

  /** When all shares tie, the sort keeps the order. */
  lemma SortKeepsTies(s: seq<Slice>, v: real)
    requires forall i :: 0 <= i < |s| ==> s[i].share == v
    ensures SortByShare(s) == s
  {
    var sorted := SortByShare(s);
    forall i | 0 <= i < |sorted|
      ensures sorted[i].share == v
    {
      assert sorted[i] in multiset(s);
    }
    AllShares(s, v);
    AllShares(sorted, v);
    SortStable(s, v);
  }

  /** When every slice has share `v`, picking share `v` keeps everything. */
  lemma {:induction false} AllShares(s: seq<Slice>, v: real)
    requires forall i :: 0 <= i < |s| ==> s[i].share == v
    ensures WithShare(s, v) == s
  {
    if s != [] {
      AllShares(s[1..], v);
    }
  }
}
