/** How alike two tool calls' arguments are, as a score computed over nested JSON values. */
module Similarity {
  import opened Messages
  import opened Sequences
  import opened Utf8

  function Abs(x: real): real {
    if x < 0.0 then -x else x
  }

  function Max(x: real, y: real): real {
    if x < y then y else x
  }

  /** One minus the difference in size, relative to the larger. */
  function SizeSimilarity(m: nat, n: nat): real
    requires m != 0 || n != 0
  {
    1.0 - Abs(m as real - n as real) / Max(m as real, n as real)
  }

  /** How much of their union two sets share. */
  function Overlap<T>(a: set<T>, b: set<T>): real
    requires a + b != {}
  {
    |a * b| as real / |a + b| as real
  }

  /** The characters of a string, each as its bytes. */
  function Characters(s: seq<byte>): set<seq<byte>> {
    if s == [] then {}
    else
      var w := if 1 <= Width(s[0]) <= |s| then Width(s[0]) else |s|;
      {s[..w]} + Characters(s[w..])
  }

  lemma CharactersOfNonEmpty(s: seq<byte>)
    requires s != []
    ensures Characters(s) != {}
  {
  }

  function StringSimilarity(s: seq<byte>, t: seq<byte>): real {
    if s == t then 1.0
    else if s == [] || t == [] then 0.0
    else
      CharactersOfNonEmpty(s);
      Overlap(Characters(s), Characters(t)) * 0.7 + SizeSimilarity(|s|, |t|) * 0.3
  }

  /** A number as a float. */
  function AsFloat(n: Json): real
    requires n.Integer? || n.Float?
  {
    if n.Integer? then n.i as real else n.f
  }

  function NumberSimilarity(x: real, y: real): real {
    if x == y then 1.0
    else
      var m := Max(Abs(x), Abs(y));
      Max(1.0 - Abs(x - y) / m, 0.0)
  }

  predicate IsNumber(j: Json) {
    j.Integer? || j.Float?
  }

  /** The score of two values: 1 if they are equal, otherwise by their kind, and 0 for different kinds. */
  ghost function Score(a: Json, b: Json): real
    decreases a, 2, 0
  {
    if a == b then 1.0
    else if a.Object? && b.Object? then ObjectScore(a, b)
    else if a.Array? && b.Array? then ArrayScore(a, b)
    else if a.String? && b.String? then StringSimilarity(a.s, b.s)
    else if IsNumber(a) && IsNumber(b) then NumberSimilarity(AsFloat(a), AsFloat(b))
    else 0.0
  }

  /** The summed scores of the values under some common keys. */
  ghost function KeySum(a: Json, b: Json, keys: set<string>): real
    requires a.Object? && b.Object? && keys <= a.fields.Keys * b.fields.Keys
    decreases a, 0, |keys|
  {
    if keys == {} then 0.0
    else
      var k :| k in keys;
      Score(a.fields[k], b.fields[k]) + KeySum(a, b, keys - {k})
  }

  ghost function ObjectScore(a: Json, b: Json): real
    requires a.Object? && b.Object?
    decreases a, 1, 0
  {
    var common := a.fields.Keys * b.fields.Keys;
    if a.fields.Keys + b.fields.Keys == {} then 1.0
    else
      Overlap(a.fields.Keys, b.fields.Keys) * 0.6
      + (if common == {} then 0.0 else KeySum(a, b, common) / |common| as real) * 0.4
  }

  /** The summed scores of the first `n` items. */
  ghost function ItemSum(a: Json, b: Json, n: nat): real
    requires a.Array? && b.Array? && n <= |a.items| && n <= |b.items|
    decreases a, 0, n
  {
    if n == 0 then 0.0 else ItemSum(a, b, n - 1) + Score(a.items[n - 1], b.items[n - 1])
  }

  ghost function ArrayScore(a: Json, b: Json): real
    requires a.Array? && b.Array?
    decreases a, 1, 0
  {
    var m, n := |a.items|, |b.items|;
    if m == 0 && n == 0 then 1.0
    else if m == n then ItemSum(a, b, m) / m as real
    else if m == 0 || n == 0 then SizeSimilarity(m, n) * 0.5
    else
      var shared := if m < n then m else n;
      SizeSimilarity(m, n) * 0.3 + ItemSum(a, b, shared) / shared as real * 0.7
  }

  // ---- The order of keys does not matter ----

  /** Whichever key is taken first, the sum is the same. */
  lemma {:induction false} KeySumInAnyOrder(a: Json, b: Json, keys: set<string>, k: string)
    requires a.Object? && b.Object? && keys <= a.fields.Keys * b.fields.Keys && k in keys
    ensures KeySum(a, b, keys) == Score(a.fields[k], b.fields[k]) + KeySum(a, b, keys - {k})
    decreases |keys|
  {
    hide Score;
    var first :| first in keys
        && KeySum(a, b, keys) == Score(a.fields[first], b.fields[first]) + KeySum(a, b, keys - {first});
    if first != k {
      KeySumInAnyOrder(a, b, keys - {first}, k);
      KeySumInAnyOrder(a, b, keys - {k}, first);
      assert keys - {first} - {k} == keys - {k} - {first};
    }
  }

  // ---- Computing the score ----

  method CalculateObjectSimilarity(a: Json, b: Json) returns (r: real)
    requires a.Object? && b.Object?
    ensures r == ObjectScore(a, b)
    decreases a, 0
  {
    if a.fields == map[] && b.fields == map[] {
      return 1.0;
    }
    var common, all := a.fields.Keys * b.fields.Keys, a.fields.Keys + b.fields.Keys;
    if all == {} {
      return 1.0;
    }
    var keySimilarity := |common| as real / |all| as real;
    var sum, count := 0.0, 0;
    var left := common;
    while left != {}
      invariant left <= common && count == |common| - |left|
      invariant sum + KeySum(a, b, left) == KeySum(a, b, common)
      decreases left
    {
      var key :| key in left;
      KeySumInAnyOrder(a, b, left, key);
      var score := CalculateArgumentSimilarity(a.fields[key], b.fields[key]);
      sum, count, left := sum + score, count + 1, left - {key};
    }
    var valueSimilarity := if count > 0 then sum / count as real else 0.0;
    r := keySimilarity * 0.6 + valueSimilarity * 0.4;
  }

  method CalculateArraySimilarity(a: Json, b: Json) returns (r: real)
    requires a.Array? && b.Array?
    ensures r == ArrayScore(a, b)
    decreases a, 0
  {
    var m, n := |a.items|, |b.items|;
    if m == 0 && n == 0 {
      return 1.0;
    }
    var shared := if m < n then m else n;
    if m != n && shared == 0 {
      return SizeSimilarity(m, n) * 0.5;
    }
    var sum := 0.0;
    for i := 0 to shared
      invariant sum == ItemSum(a, b, i)
    {
      var score := CalculateArgumentSimilarity(a.items[i], b.items[i]);
      sum := sum + score;
    }
    if m != n {
      r := SizeSimilarity(m, n) * 0.3 + sum / shared as real * 0.7;
    } else {
      r := sum / m as real;
    }
  }

  /** The score of two values, with the keys of objects taken in any order. */
  method CalculateArgumentSimilarity(a: Json, b: Json) returns (r: real)
    ensures r == Score(a, b)
    decreases a, 1
  {
    if a == b {
      return 1.0;
    }
    if a.Object? && b.Object? {
      r := CalculateObjectSimilarity(a, b);
    } else if a.Array? && b.Array? {
      r := CalculateArraySimilarity(a, b);
    } else if a.String? && b.String? {
      r := StringSimilarity(a.s, b.s);
    } else if IsNumber(a) && IsNumber(b) {
      r := NumberSimilarity(AsFloat(a), AsFloat(b));
    } else {
      r := 0.0;
    }
  }

  // ---- The score is between 0 and 1 ----

  predicate IsScore(x: real) {
    0.0 <= x <= 1.0
  }

  lemma RatioIsScore(x: real, y: real)
    requires 0.0 <= x <= y && y > 0.0
    ensures IsScore(x / y)
  {
    assert x / y * y == x;
  }

  lemma SizeSimilarityIsScore(m: nat, n: nat)
    requires m != 0 || n != 0
    ensures IsScore(SizeSimilarity(m, n)) && SizeSimilarity(m, n) == SizeSimilarity(n, m)
  {
    RatioIsScore(Abs(m as real - n as real), Max(m as real, n as real));
  }

  lemma OverlapIsScore<T>(a: set<T>, b: set<T>)
    requires a + b != {}
    ensures IsScore(Overlap(a, b)) && Overlap(a, b) == Overlap(b, a)
  {
    SubsetSize(a * b, a + b);
    RatioIsScore(|a * b| as real, |a + b| as real);
    assert a * b == b * a && a + b == b + a;
  }

  lemma StringSimilarityIsScore(s: seq<byte>, t: seq<byte>)
    ensures IsScore(StringSimilarity(s, t)) && StringSimilarity(s, t) == StringSimilarity(t, s)
  {
    hide Characters, SizeSimilarity, Overlap;
    if s != t && s != [] && t != [] {
      CharactersOfNonEmpty(s);
      OverlapIsScore(Characters(s), Characters(t));
      SizeSimilarityIsScore(|s|, |t|);
    }
  }

  lemma NumberSimilarityIsScore(x: real, y: real)
    ensures IsScore(NumberSimilarity(x, y)) && NumberSimilarity(x, y) == NumberSimilarity(y, x)
  {
    if x != y {
      var m, d := Max(Abs(x), Abs(y)), Abs(x - y);
      assert m > 0.0;
      assert d / m * m == d;
    }
  }

  /** A weighted sum of two scores. */
  lemma WeightedIsScore(x: real, y: real, w: real)
    requires IsScore(x) && IsScore(y) && IsScore(w)
    ensures IsScore(x * w + y * (1.0 - w))
  {
    assert 0.0 <= x * w <= w;
    assert 0.0 <= y * (1.0 - w) <= 1.0 - w;
  }

  /** Every score is between 0 and 1, and the same in both directions. */
  lemma {:induction false} ScoreIsFair(a: Json, b: Json)
    ensures IsScore(Score(a, b)) && Score(a, b) == Score(b, a)
    decreases a, 2, 0
  {
    hide StringSimilarity, NumberSimilarity, ObjectScore, ArrayScore;
    if a != b {
      if a.Object? && b.Object? {
        ObjectScoreIsFair(a, b);
      } else if a.Array? && b.Array? {
        ArrayScoreIsFair(a, b);
      } else if a.String? && b.String? {
        StringSimilarityIsScore(a.s, b.s);
      } else if IsNumber(a) && IsNumber(b) {
        NumberSimilarityIsScore(AsFloat(a), AsFloat(b));
      }
    }
  }

  lemma {:induction false} KeySumIsFair(a: Json, b: Json, keys: set<string>)
    requires a.Object? && b.Object? && keys <= a.fields.Keys * b.fields.Keys
    ensures 0.0 <= KeySum(a, b, keys) <= |keys| as real && KeySum(a, b, keys) == KeySum(b, a, keys)
    decreases a, 0, |keys|
  {
    hide Score;
    if keys != {} {
      var k :| k in keys;
      ScoreIsFair(a.fields[k], b.fields[k]);
      KeySumIsFair(a, b, keys - {k});
      KeySumInAnyOrder(a, b, keys, k);
      KeySumInAnyOrder(b, a, keys, k);
    }
  }

  lemma {:induction false} ObjectScoreIsFair(a: Json, b: Json)
    requires a.Object? && b.Object?
    ensures IsScore(ObjectScore(a, b)) && ObjectScore(a, b) == ObjectScore(b, a)
    decreases a, 1, 0
  {
    hide Score, KeySum, Overlap;
    var keysA, keysB := a.fields.Keys, b.fields.Keys;
    var common := keysA * keysB;
    assert keysB * keysA == common && keysB + keysA == keysA + keysB;
    if keysA + keysB == {} {
      return;
    }
    OverlapIsScore(keysA, keysB);
    KeySumIsFair(a, b, common);
    var values := if common == {} then 0.0 else KeySum(a, b, common) / |common| as real;
    if common != {} {
      RatioIsScore(KeySum(a, b, common), |common| as real);
    }
    WeightedIsScore(Overlap(keysA, keysB), values, 0.6);
  }

  lemma {:induction false} ItemSumIsFair(a: Json, b: Json, n: nat)
    requires a.Array? && b.Array? && n <= |a.items| && n <= |b.items|
    ensures 0.0 <= ItemSum(a, b, n) <= n as real && ItemSum(a, b, n) == ItemSum(b, a, n)
    decreases a, 0, n
  {
    hide Score;
    if n > 0 {
      ItemSumIsFair(a, b, n - 1);
      ScoreIsFair(a.items[n - 1], b.items[n - 1]);
    }
  }

  lemma {:induction false} ArrayScoreIsFair(a: Json, b: Json)
    requires a.Array? && b.Array?
    ensures IsScore(ArrayScore(a, b)) && ArrayScore(a, b) == ArrayScore(b, a)
    decreases a, 1, 0
  {
    hide Score, ItemSum, SizeSimilarity;
    var m, n := |a.items|, |b.items|;
    var shared := if m < n then m else n;
    ItemSumIsFair(a, b, shared);
    if shared > 0 {
      RatioIsScore(ItemSum(a, b, shared), shared as real);
    }
    if m != n {
      SizeSimilarityIsScore(m, n);
      if shared > 0 {
        WeightedIsScore(SizeSimilarity(m, n), ItemSum(a, b, shared) / shared as real, 0.3);
      }
    }
  }

  // ---- What the scores are made of ----

  function Least(m: nat, n: nat): nat {
    if m < n then m else n
  }

  function Greatest(m: nat, n: nat): nat {
    if m < n then n else m
  }

  /** Some character of `s` begins at `k`, and is `c`. */
  predicate HasCharacterAt(s: seq<byte>, k: int, c: seq<byte>) {
    0 <= k < |s| && !IsContinuation(s[k]) && k + Width(s[k]) <= |s| && c == s[k..k + Width(s[k])]
  }

  predicate IsCharacterOf(c: seq<byte>, s: seq<byte>) {
    c in Characters(s)
  }

  /** The characters of a string are what begins at its boundaries. */
  lemma {:induction false} CharactersAreAll(s: seq<byte>, c: seq<byte>)
    requires WellFormed(s)
    ensures IsCharacterOf(c, s) <==> exists k :: HasCharacterAt(s, k, c)
    decreases |s|
  {
    hide Width, WellFormed, Characters, IsCharacterOf;
    if s == [] {
      NoCharacters(c);
    } else {
      FirstCharacter(s, c);
      var w := Width(s[0]);
      CharactersAreAll(s[w..], c);
      if exists k :: HasCharacterAt(s, k, c) {
        var k :| HasCharacterAt(s, k, c);
        CharacterStarts(s, w, k, c);
        if k > 0 {
          ShiftedCharacter(s, w, k, k - w, c);
          assert exists j :: HasCharacterAt(s[w..], j, c);
        }
        assert IsCharacterOf(c, s);
      } else {
        assert !HasCharacterAt(s, 0, c);
        assert c != s[..w];
        forall j
          ensures !HasCharacterAt(s[w..], j, c)
        {
          if HasCharacterAt(s[w..], j, c) {
            CharacterStarts(s[w..], 0, j, c);
            ShiftedCharacter(s, w, j + w, j, c);
          }
        }
        assert !IsCharacterOf(c, s[w..]);
        assert !IsCharacterOf(c, s);
      }
    }
  }

  lemma NoCharacters(c: seq<byte>)
    ensures !IsCharacterOf(c, []) && forall k :: !HasCharacterAt([], k, c)
  {
  }

  /** A character begins at the start or after the first one. */
  lemma CharacterStarts(s: seq<byte>, w: nat, k: int, c: seq<byte>)
    requires HasCharacterAt(s, k, c) && forall j :: 1 <= j < w && j < |s| ==> IsContinuation(s[j])
    ensures k == 0 || k >= w
    ensures k >= 0 && (k == 0 ==> c == s[..Width(s[0])])
  {
    hide Width;
  }

  lemma ShiftedCharacter(s: seq<byte>, w: nat, k: int, j: int, c: seq<byte>)
    requires w <= k && w <= |s| && j == k - w
    ensures HasCharacterAt(s, k, c) <==> HasCharacterAt(s[w..], j, c)
  {
    hide Width;
    if k < |s| && k + Width(s[k]) <= |s| {
      var x := Width(s[k]);
      assert s[w..][k - w..k - w + x] == s[k..k + x];
    }
  }

  lemma FirstCharacter(s: seq<byte>, c: seq<byte>)
    requires WellFormed(s) && s != []
    ensures var w := Width(s[0]);
            && 1 <= w <= |s| && WellFormed(s[w..]) && !IsContinuation(s[0])
                && (forall k :: 1 <= k < w ==> IsContinuation(s[k]))
            && (IsCharacterOf(c, s) <==> c == s[..w] || IsCharacterOf(c, s[w..])) && HasCharacterAt(s, 0, s[..w])
  {
  }

  lemma SizeParts(m: nat, n: nat)
    requires m != 0 || n != 0
    ensures SizeSimilarity(m, n) * Greatest(m, n) as real == Least(m, n) as real
  {
    var d, g := Abs(m as real - n as real), Max(m as real, n as real);
    assert d / g * g == d;
    assert (1.0 - d / g) * g == g - d / g * g;
  }

  lemma OverlapParts<T>(a: set<T>, b: set<T>)
    requires a + b != {}
    ensures Overlap(a, b) * |a + b| as real == |a * b| as real
  {
    QuotientTimes(|a * b| as real, |a + b| as real);
  }

  lemma QuotientTimes(x: real, y: real)
    requires y != 0.0
    ensures x / y * y == x
  {
  }

  /** Values of different kinds score 0. */
  lemma KindsScoreZero(a: Json, b: Json)
    requires a != b && !(a.Object? && b.Object?) && !(a.Array? && b.Array?) && !(a.String? && b.String?)
    requires !(IsNumber(a) && IsNumber(b))
    ensures Score(a, b) == 0.0
  {
  }

  /** Different strings: seven tenths for the share of characters, three tenths for the ratio of lengths;
      an empty one scores 0. */
  lemma StringScoreParts(s: seq<byte>, t: seq<byte>) returns (shared: real, lengths: real)
    requires s != t
    ensures s == [] || t == [] ==> Score(String(s), String(t)) == 0.0
    ensures s != [] && t != [] ==>
              && shared * |Characters(s) + Characters(t)| as real == |Characters(s) * Characters(t)| as real
              && lengths * Greatest(|s|, |t|) as real == Least(|s|, |t|) as real
              && Score(String(s), String(t)) == shared * 0.7 + lengths * 0.3
  {
    hide Characters, SizeSimilarity, Overlap, Greatest, Least;
    shared, lengths := 0.0, 0.0;
    if s != [] && t != [] {
      CharactersOfNonEmpty(s);
      OverlapParts(Characters(s), Characters(t));
      SizeParts(|s|, |t|);
      shared, lengths := Overlap(Characters(s), Characters(t)), SizeSimilarity(|s|, |t|);
    }
  }

  /** Different numbers: one minus the difference relative to the larger, but not below 0. */
  lemma NumberScoreParts(a: Json, b: Json)
    requires IsNumber(a) && IsNumber(b) && AsFloat(a) != AsFloat(b)
    ensures var x, y := AsFloat(a), AsFloat(b);
            var larger := Max(Abs(x), Abs(y));
            Score(a, b) * larger == Max(larger - Abs(x - y), 0.0)
  {
    hide NumberSimilarity, Max, Abs;
    NumberParts(AsFloat(a), AsFloat(b));
  }

  lemma NumberParts(x: real, y: real)
    requires x != y
    ensures NumberSimilarity(x, y) * Max(Abs(x), Abs(y)) == Max(Max(Abs(x), Abs(y)) - Abs(x - y), 0.0)
  {
    var larger, d := Max(Abs(x), Abs(y)), Abs(x - y);
    assert larger > 0.0;
    hide Abs;
    OneMinusTimes(d, larger);
  }

  lemma OneMinusTimes(d: real, larger: real)
    requires larger > 0.0
    ensures Max(1.0 - d / larger, 0.0) * larger == Max(larger - d, 0.0)
  {
    var q := d / larger;
    QuotientTimes(d, larger);
    var r := 1.0 - q;
    assert r * larger == larger - q * larger;
    assert r < 0.0 ==> r * larger < 0.0;
    assert r >= 0.0 ==> r * larger >= 0.0;
  }

  /** Different objects: six tenths for the share of keys, four tenths for the mean score of the values
      under the common keys. */
  lemma ObjectScoreParts(a: Json, b: Json) returns (shared: real, mean: real)
    requires a.Object? && b.Object? && a != b
    ensures var keysA, keysB := a.fields.Keys, b.fields.Keys;
            && shared * |keysA + keysB| as real == |keysA * keysB| as real
            && mean * |keysA * keysB| as real == KeySum(a, b, keysA * keysB) && (keysA * keysB == {} ==> mean == 0.0)
            && Score(a, b) == shared * 0.6 + mean * 0.4
  {
    hide Overlap, KeySum;
    var keysA, keysB := a.fields.Keys, b.fields.Keys;
    var common := keysA * keysB;
    assert keysA + keysB != {};
    OverlapParts(keysA, keysB);
    shared := Overlap(keysA, keysB);
    mean := if common == {} then 0.0 else KeySum(a, b, common) / |common| as real;
    NoKeys(a, b);
    if common != {} {
      QuotientTimes(KeySum(a, b, common), |common| as real);
    }
  }

  lemma NoKeys(a: Json, b: Json)
    requires a.Object? && b.Object?
    ensures KeySum(a, b, {}) == 0.0
  {
  }

  /** Different arrays: the mean score of the items if they are equally long; otherwise three tenths for
      the ratio of lengths, seven tenths for the mean score of the items both have. */
  lemma ArrayScoreParts(a: Json, b: Json) returns (lengths: real, mean: real)
    requires a.Array? && b.Array? && a != b
    ensures var m, n := |a.items|, |b.items|;
            && lengths * Greatest(m, n) as real == Least(m, n) as real
            && mean * Least(m, n) as real == ItemSum(a, b, Least(m, n)) && (Least(m, n) == 0 ==> mean == 0.0)
            && Score(a, b) == if m == n then mean else lengths * 0.3 + mean * 0.7
  {
    hide SizeSimilarity;
    var m, n := |a.items|, |b.items|;
    assert m != 0 || n != 0;
    SizeParts(m, n);
    lengths := SizeSimilarity(m, n);
    var shared := Least(m, n);
    mean := if shared == 0 then 0.0 else ItemSum(a, b, shared) / shared as real;
    hide ItemSum;
    NoItems(a, b);
    if shared > 0 {
      QuotientTimes(ItemSum(a, b, shared), shared as real);
    } else {
      NoRatio(lengths, Greatest(m, n));
    }
  }

  lemma NoItems(a: Json, b: Json)
    requires a.Array? && b.Array?
    ensures ItemSum(a, b, 0) == 0.0
  {
  }

  lemma NoRatio(ratio: real, n: nat)
    requires ratio * n as real == 0.0 && n > 0
    ensures ratio == 0.0
  {
  }

  // ---- Which values score 1 ----

  /** Strings that differ only in the order and number of their characters: equally long, with the same
      set of characters. */
  predicate AlikeStrings(s: seq<byte>, t: seq<byte>) {
    s == t || (s != [] && t != [] && |s| == |t| && Characters(s) == Characters(t))
  }

  /** Equal, up to the characters of strings and the way numbers are written, all the way down. */
  predicate Alike(a: Json, b: Json) {
    || a == b
    || (a.Object? && b.Object? && a.fields.Keys == b.fields.Keys
        && forall k :: k in a.fields ==> Alike(a.fields[k], b.fields[k]))
    || (a.Array? && b.Array? && |a.items| == |b.items|
        && forall i :: 0 <= i < |a.items| ==> Alike(a.items[i], b.items[i]))
    || (a.String? && b.String? && AlikeStrings(a.s, b.s))
    || (IsNumber(a) && IsNumber(b) && AsFloat(a) == AsFloat(b))
  }

  lemma RatioIsOne(x: real, y: real)
    requires y > 0.0
    ensures x / y == 1.0 <==> x == y
  {
    assert x / y * y == x;
  }

  lemma ProductIsWeight(x: real, w: real)
    requires IsScore(x) && w > 0.0
    ensures x * w <= w && (x * w == w <==> x == 1.0)
  {
    assert (1.0 - x) * w == w - x * w;
  }

  /** A weighted sum of scores is 1 only if both are. */
  lemma WeightedIsOne(x: real, y: real, w: real)
    requires IsScore(x) && IsScore(y) && 0.0 < w < 1.0
    ensures x * w + y * (1.0 - w) == 1.0 <==> x == 1.0 && y == 1.0
  {
    var v := 1.0 - w;
    var p, q := x * w, y * v;
    ProductIsWeight(x, w);
    ProductIsWeight(y, v);
    assert p + q == 1.0 <==> p == w && q == v;
    assert x * w + y * (1.0 - w) == p + q;
  }

  lemma {:induction false} SameSizeIsSame<T>(a: set<T>, b: set<T>)
    requires a <= b
    ensures |a| == |b| <==> a == b
  {
    if a != b {
      var x :| x in b && x !in a;
      SubsetSize(a, b - {x});
    }
  }

  lemma OverlapIsOne<T>(a: set<T>, b: set<T>)
    requires a + b != {}
    ensures Overlap(a, b) == 1.0 <==> a == b
  {
    RatioIsOne(|a * b| as real, |a + b| as real);
    SameSizeIsSame(a * b, a + b);
    assert a * b == a + b <==> a == b by {
      if a * b == a + b {
        assert forall x :: x in a ==> x in a + b;
        assert forall x :: x in b ==> x in a + b;
      }
    }
  }

  lemma SizeSimilarityIsOne(m: nat, n: nat)
    requires m != 0 || n != 0
    ensures SizeSimilarity(m, n) == 1.0 <==> m == n
  {
    var x, y := Abs(m as real - n as real), Max(m as real, n as real);
    assert x / y * y == x;
  }

  lemma StringScoreIsOne(s: seq<byte>, t: seq<byte>)
    ensures StringSimilarity(s, t) == 1.0 <==> AlikeStrings(s, t)
  {
    hide Characters, SizeSimilarity, Overlap;
    if s != t && s != [] && t != [] {
      CharactersOfNonEmpty(s);
      OverlapIsScore(Characters(s), Characters(t));
      OverlapIsOne(Characters(s), Characters(t));
      SizeSimilarityIsScore(|s|, |t|);
      SizeSimilarityIsOne(|s|, |t|);
      WeightedIsOne(Overlap(Characters(s), Characters(t)), SizeSimilarity(|s|, |t|), 0.7);
    }
  }

  lemma NumberScoreIsOne(x: real, y: real)
    ensures NumberSimilarity(x, y) == 1.0 <==> x == y
  {
    if x != y {
      var m, d := Max(Abs(x), Abs(y)), Abs(x - y);
      assert m > 0.0 && d > 0.0;
      assert d / m * m == d;
    }
  }

  /** The score is 1 exactly for values that are alike: the documentation's "identical" holds up to the
      characters of strings and the way numbers are written. */
  lemma {:induction false} ScoreIsOneIffAlike(a: Json, b: Json)
    ensures Score(a, b) == 1.0 <==> Alike(a, b)
    decreases a, 2, 0
  {
    hide StringSimilarity, NumberSimilarity, ObjectScore, ArrayScore, AlikeStrings;
    if a != b {
      if a.Object? && b.Object? {
        ObjectScoreIsOne(a, b);
      } else if a.Array? && b.Array? {
        ArrayScoreIsOne(a, b);
      } else if a.String? && b.String? {
        StringScoreIsOne(a.s, b.s);
      } else if IsNumber(a) && IsNumber(b) {
        NumberScoreIsOne(AsFloat(a), AsFloat(b));
      }
    }
  }

  lemma {:induction false} KeySumIsFull(a: Json, b: Json, keys: set<string>)
    requires a.Object? && b.Object? && keys <= a.fields.Keys * b.fields.Keys
    ensures KeySum(a, b, keys) == |keys| as real <==> forall k :: k in keys ==> Alike(a.fields[k], b.fields[k])
    decreases a, 0, |keys|
  {
    hide Score, Alike;
    if keys != {} {
      var k :| k in keys;
      ScoreIsFair(a.fields[k], b.fields[k]);
      ScoreIsOneIffAlike(a.fields[k], b.fields[k]);
      KeySumIsFair(a, b, keys - {k});
      KeySumIsFull(a, b, keys - {k});
      KeySumInAnyOrder(a, b, keys, k);
    }
  }

  lemma {:induction false} ObjectScoreIsOne(a: Json, b: Json)
    requires a.Object? && b.Object? && a != b
    ensures ObjectScore(a, b) == 1.0
            <==> a.fields.Keys == b.fields.Keys && forall k :: k in a.fields ==> Alike(a.fields[k], b.fields[k])
    decreases a, 1, 0
  {
    hide Score, KeySum, Overlap, Alike;
    var keysA, keysB := a.fields.Keys, b.fields.Keys;
    var common := keysA * keysB;
    assert keysA + keysB != {};
    OverlapIsScore(keysA, keysB);
    OverlapIsOne(keysA, keysB);
    KeySumIsFair(a, b, common);
    KeySumIsFull(a, b, common);
    var values := if common == {} then 0.0 else KeySum(a, b, common) / |common| as real;
    if common != {} {
      RatioIsScore(KeySum(a, b, common), |common| as real);
      RatioIsOne(KeySum(a, b, common), |common| as real);
    }
    WeightedIsOne(Overlap(keysA, keysB), values, 0.6);
  }

  lemma {:induction false} ItemSumIsFull(a: Json, b: Json, n: nat)
    requires a.Array? && b.Array? && n <= |a.items| && n <= |b.items|
    ensures ItemSum(a, b, n) == n as real <==> forall i :: 0 <= i < n ==> Alike(a.items[i], b.items[i])
    decreases a, 0, n
  {
    hide Score, Alike;
    if n > 0 {
      ItemSumIsFair(a, b, n - 1);
      ItemSumIsFull(a, b, n - 1);
      ScoreIsFair(a.items[n - 1], b.items[n - 1]);
      ScoreIsOneIffAlike(a.items[n - 1], b.items[n - 1]);
    }
  }

  lemma {:induction false} ArrayScoreIsOne(a: Json, b: Json)
    requires a.Array? && b.Array? && a != b
    ensures ArrayScore(a, b) == 1.0
            <==> |a.items| == |b.items| && forall i :: 0 <= i < |a.items| ==> Alike(a.items[i], b.items[i])
    decreases a, 1, 0
  {
    hide Score, ItemSum, SizeSimilarity, Alike;
    var m, n := |a.items|, |b.items|;
    var shared := if m < n then m else n;
    ItemSumIsFair(a, b, shared);
    if shared > 0 {
      RatioIsScore(ItemSum(a, b, shared), shared as real);
    }
    if m != n {
      SizeSimilarityIsScore(m, n);
      SizeSimilarityIsOne(m, n);
      if shared > 0 {
        WeightedIsOne(SizeSimilarity(m, n), ItemSum(a, b, shared) / shared as real, 0.3);
      }
    } else if m > 0 {
      ItemSumIsFull(a, b, m);
      RatioIsOne(ItemSum(a, b, m), m as real);
    }
  }

  lemma TwoCharacters(x: byte, y: byte)
    requires x < 0x80 && y < 0x80
    ensures Characters([x, y]) == {[x], [y]}
  {
    assert [x, y][..1] == [x] && [x, y][1..] == [y];
    assert [y][..1] == [y] && [y][1..] == [];
    assert Characters([y]) == {[y]} + Characters([]);
  }

  /** Values that are alike need not be equal: two strings of the same characters. */
  lemma OneDoesNotMeanEqual()
    ensures var ab, ba := Json.String([0x61, 0x62]), Json.String([0x62, 0x61]);
            ab != ba && Alike(ab, ba) && Score(ab, ba) == 1.0
  {
    hide Characters;
    var ab: seq<byte>, ba: seq<byte> := [0x61, 0x62], [0x62, 0x61];
    TwoCharacters(0x61, 0x62);
    TwoCharacters(0x62, 0x61);
    assert ab[0] != ba[0];
    var both: set<seq<byte>> := {[0x61], [0x62]};
    assert Characters(ab) == both && Characters(ba) == both;
    ScoreIsOneIffAlike(Json.String(ab), Json.String(ba));
  }
}
