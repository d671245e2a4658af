/**
  `AddressSorter`: addresses are sorted by a key made of the digit and non-digit
  runs of their text, digit runs read as numbers, with a leading house number
  moved behind the street that follows it. Python compares such keys as lists;
  an int met by a str at the first difference raises `TypeError`.
*/
module AddressSorter {
  import opened Text

  // ---------------------------------------------------------------------------
  // re.split('([0-9]+)', s) with the empty pieces filtered out

  /** A run: non-empty, all digits or all non-digits. */
  predicate Uniform(run: string)
  {
    run != [] && forall i :: 0 <= i < |run| ==> IsDigit(run[i]) == IsDigit(run[0])
  }

  predicate StartsWithDigit(run: string) { run != [] && IsDigit(run[0]) }

  /** Digit runs and non-digit runs take turns. */
  predicate Alternating(runs: seq<string>)
  {
    forall i :: 0 <= i < |runs| - 1 ==> StartsWithDigit(runs[i]) != StartsWithDigit(runs[i + 1])
  }

  function Flatten(runs: seq<string>): string
  {
    if runs == [] then [] else runs[0] + Flatten(runs[1..])
  }

  /** The maximal runs of digits and of non-digits of `s`, in order. */
  function Runs(s: string): (runs: seq<string>)
    ensures Flatten(runs) == s
    ensures forall i :: 0 <= i < |runs| ==> Uniform(runs[i])
    ensures Alternating(runs)
    ensures runs == [] <==> s == []
  {
    if s == [] then []
    else
      var rest := Runs(s[1..]);
      if rest != [] && IsDigit(rest[0][0]) == IsDigit(s[0]) then
        assert Flatten(rest) == rest[0] + Flatten(rest[1..]);
        var runs := [[s[0]] + rest[0]] + rest[1..];
        assert runs[1..] == rest[1..];
        assert Flatten(runs) == [s[0]] + rest[0] + Flatten(rest[1..]);
        runs
      else
        var runs := [[s[0]]] + rest;
        assert runs[1..] == rest;
        runs
  }

  /** The first run starts the string. */
  lemma RunsStart(s: string)
    requires s != []
    ensures Runs(s)[0][0] == s[0]
  {
    var runs := Runs(s);
    assert Flatten(runs) == runs[0] + Flatten(runs[1..]);
  }

  /** A run of digits followed by a run of non-digits splits into exactly those two runs. */
  lemma {:induction false} RunsOfNumberAndText(digits: string, text: string)
    requires digits != [] && AllDigits(digits)
    requires text != [] && forall i :: 0 <= i < |text| ==> !IsDigit(text[i])
    ensures Runs(digits + text) == [digits, text]
  {
    if |digits| == 1 {
      RunsOfText(text);
      assert (digits + text)[1..] == text;
    } else {
      RunsOfNumberAndText(digits[1..], text);
      assert (digits + text)[1..] == digits[1..] + text;
      assert [digits[0]] + digits[1..] == digits;
    }
  }

  lemma {:induction false} RunsOfText(text: string)
    requires text != [] && forall i :: 0 <= i < |text| ==> !IsDigit(text[i])
    ensures Runs(text) == [text]
  {
    if |text| > 1 {
      RunsOfText(text[1..]);
      var rest := Runs(text[1..]);
      assert rest == [text[1..]] && rest[1..] == [];
      assert [text[0]] + text[1..] == text;
    } else {
      assert text[1..] == [] && [text[0]] == text;
    }
  }

  // ---------------------------------------------------------------------------
  // convert and alphanum_key

  /** One element of a sort key: Python's `int` or `str`. */
  datatype Piece = Num(n: nat) | Str(s: string)

  /** `convert`: `int(text)` when the run is all digits, else the text itself. */
  function Convert(run: string): (p: Piece)
    requires Uniform(run)
    ensures p.Num? <==> IsDigit(run[0])
    ensures p.Str? ==> p.s == run
  {
    if AllDigits(run) then Num(DigitsValue(run)) else Str(run)
  }

  /** `alphanum_key`: the runs of the address, digit runs as numbers. */
  function AlphanumKey(address: string): (key: seq<Piece>)
    ensures |key| == |Runs(address)|
    ensures key == [] <==> address == []
    ensures forall i :: 0 <= i < |key| - 1 ==> key[i].Num? != key[i + 1].Num?
    ensures forall i :: 0 <= i < |key| && key[i].Str? ==>
      key[i].s != [] && forall j :: 0 <= j < |key[i].s| ==> !IsDigit(key[i].s[j])
  {
    var runs := Runs(address);
    seq(|runs|, i requires 0 <= i < |runs| => Convert(runs[i]))
  }

  /** Whether `swap_fields` moves the leading number behind the run after it. */
  predicate MovesHouseNumber(key: seq<Piece>)
    requires forall i :: 0 <= i < |key| && key[i].Str? ==> key[i].s != []
  {
    |key| > 1 && key[0].Num? && key[1].Str? && (IsSpace(key[1].s[0]) || key[1].s[0] == ',')
  }

  /** The key `swap_fields` returns; the empty address, where Python raises
      `IndexError`, has the empty key. */
  function SortKey(address: string): seq<Piece>
  {
    var key := AlphanumKey(address);
    if MovesHouseNumber(key) then [key[1], key[0]] + key[2..]
    else if key != [] && key[0].Num? then [Str(DecimalString(key[0].n))] + key[1..]
    else key
  }

  /** `swap_fields`, with the key held in an array and updated in place. */
  method SwapFields(address: string) returns (key: seq<Piece>)
    requires address != ""
    ensures key == SortKey(address)
  {
    var pieces := AlphanumKey(address);
    var lst := new Piece[|pieces|](i requires 0 <= i < |pieces| => pieces[i]);
    if lst.Length > 1 && lst[0].Num? && lst[1].Str? && (IsSpace(lst[1].s[0]) || lst[1].s[0] == ',') {
      lst[0], lst[1] := lst[1], lst[0];
    }
    if lst.Length > 1 && lst[0].Num? && lst[1].Num? {
      // two numbers in a row: runs alternate, and a swap leaves text first
      assert false;
    }
    if lst[0].Num? {
      lst[0] := Str(DecimalString(lst[0].n));
    }
    key := lst[..];
  }

  /** Every key of a non-empty address starts with text, never with a number. */
  lemma SortKeyStartsWithText(address: string)
    requires address != ""
    ensures SortKey(address) != [] && SortKey(address)[0].Str?
  {
  }

  /** An address that does not start with a digit keeps its `alphanum_key`, and
      its key starts with the address's first character. */
  lemma SortKeyOfText(address: string)
    requires address != "" && !IsDigit(address[0])
    ensures SortKey(address) == AlphanumKey(address)
    ensures SortKey(address)[0].s[0] == address[0]
  {
    RunsStart(address);
  }

  /** `n` followed by a street that starts with a space or a comma is keyed as
      the street, then the number. */
  lemma HouseNumberKey(n: nat, street: string)
    requires street != [] && (IsSpace(street[0]) || street[0] == ',')
    requires forall i :: 0 <= i < |street| ==> !IsDigit(street[i])
    ensures SortKey(DecimalString(n) + street) == [Str(street), Num(n)]
  {
    RunsOfNumberAndText(DecimalString(n), street);
    DecimalRoundTrip(n);
  }

  // ---------------------------------------------------------------------------
  // Python's ordering of str and of lists

  /** A strict total order. */
  ghost predicate StrictTotal<T(!new)>(less: (T, T) -> bool)
  {
    && (forall x :: !less(x, x))
    && (forall x, y, z :: less(x, y) && less(y, z) ==> less(x, z))
    && (forall x, y :: x == y || less(x, y) || less(y, x))
  }

  /** Lexicographic order: a proper prefix is smaller, else the first difference decides. */
  function LexLess<T(==)>(a: seq<T>, b: seq<T>, less: (T, T) -> bool): bool
  {
    if a == [] then b != []
    else b != [] && (less(a[0], b[0]) || (a[0] == b[0] && LexLess(a[1..], b[1..], less)))
  }

  lemma {:induction false} LexIrreflexive<T(!new)>(a: seq<T>, less: (T, T) -> bool)
    requires StrictTotal(less)
    ensures !LexLess(a, a, less)
  {
    if a != [] {
      LexIrreflexive(a[1..], less);
    }
  }

  lemma {:induction false} LexTransitive<T(!new)>(a: seq<T>, b: seq<T>, c: seq<T>, less: (T, T) -> bool)
    requires StrictTotal(less)
    requires LexLess(a, b, less) && LexLess(b, c, less)
    ensures LexLess(a, c, less)
  {
    if a != [] && a[0] == b[0] && b[0] == c[0] {
      LexTransitive(a[1..], b[1..], c[1..], less);
    }
  }

  lemma {:induction false} LexTotal<T(!new)>(a: seq<T>, b: seq<T>, less: (T, T) -> bool)
    requires StrictTotal(less)
    ensures a == b || LexLess(a, b, less) || LexLess(b, a, less)
  {
    if a != [] && b != [] && a[0] == b[0] {
      LexTotal(a[1..], b[1..], less);
      assert a == [a[0]] + a[1..] && b == [b[0]] + b[1..];
    }
  }

  /** Characters compare by code point. */
  function CharLess(c: char, d: char): bool { c < d }

  /** Python's `<` on a key element: numbers by value, strings by code point.
      A number and a string are incomparable in Python; `Num < Str` here only
      completes the order, and `Comparable` keeps it out of the sort. */
  function PieceLess(p: Piece, q: Piece): bool
  {
    match (p, q)
    case (Num(a), Num(b)) => a < b
    case (Str(a), Str(b)) => LexLess(a, b, CharLess)
    case (Num(_), Str(_)) => true
    case (Str(_), Num(_)) => false
  }

  /** Python's `<` on two keys. */
  function KeyLess(a: seq<Piece>, b: seq<Piece>): bool
  {
    LexLess(a, b, PieceLess)
  }

  /** Python compares two keys without `TypeError`: at their first difference,
      if any, both elements are numbers or both are strings. */
  predicate Comparable(a: seq<Piece>, b: seq<Piece>)
  {
    if a == [] || b == [] then true
    else if a[0] == b[0] then Comparable(a[1..], b[1..])
    else a[0].Num? == b[0].Num?
  }

  lemma {:induction false} ComparableWithItself(a: seq<Piece>)
    ensures Comparable(a, a)
  {
    if a != [] {
      ComparableWithItself(a[1..]);
    }
  }

  lemma PieceOrder()
    ensures StrictTotal(PieceLess)
  {
    assert StrictTotal(CharLess);
    forall p: Piece ensures !PieceLess(p, p) {
      if p.Str? {
        LexIrreflexive(p.s, CharLess);
      }
    }
    forall p: Piece, q: Piece, r: Piece | PieceLess(p, q) && PieceLess(q, r) ensures PieceLess(p, r) {
      if p.Str? && q.Str? && r.Str? {
        LexTransitive(p.s, q.s, r.s, CharLess);
      }
    }
    forall p: Piece, q: Piece ensures p == q || PieceLess(p, q) || PieceLess(q, p) {
      if p.Str? && q.Str? {
        LexTotal(p.s, q.s, CharLess);
      }
    }
  }

  /** Keys are totally ordered: irreflexive, transitive, and any two distinct keys compare. */
  lemma KeyOrder()
    ensures StrictTotal(KeyLess)
  {
    PieceOrder();
    forall a: seq<Piece> ensures !KeyLess(a, a) {
      LexIrreflexive(a, PieceLess);
    }
    forall a: seq<Piece>, b: seq<Piece>, c: seq<Piece> | KeyLess(a, b) && KeyLess(b, c) ensures KeyLess(a, c) {
      LexTransitive(a, b, c, PieceLess);
    }
    forall a: seq<Piece>, b: seq<Piece> ensures a == b || KeyLess(a, b) || KeyLess(b, a) {
      LexTotal(a, b, PieceLess);
    }
  }

  /** "Not smaller" is transitive too. */
  lemma NotLessTransitive(a: seq<Piece>, b: seq<Piece>, c: seq<Piece>)
    requires StrictTotal(KeyLess)
    requires !KeyLess(a, b) && !KeyLess(b, c)
    ensures !KeyLess(a, c)
  {
  }

  // ---------------------------------------------------------------------------
  // sorted(..., key=...), which is stable

  predicate SortedBy<T>(s: seq<T>, key: T -> seq<Piece>)
  {
    forall i, j :: 0 <= i < j < |s| ==> !KeyLess(key(s[j]), key(s[i]))
  }

  /** The elements of `s` whose key is `k`, in order. */
  function WithKey<T>(s: seq<T>, key: T -> seq<Piece>, k: seq<Piece>): seq<T>
  {
    if s == [] then [] else (if key(s[0]) == k then [s[0]] else []) + WithKey(s[1..], key, k)
  }

  /** Puts `x` before the first element whose key is not smaller than its own. */
  function Insert<T>(x: T, s: seq<T>, key: T -> seq<Piece>): seq<T>
  {
    if s == [] then [x]
    else if KeyLess(key(s[0]), key(x)) then [s[0]] + Insert(x, s[1..], key)
    else [x] + s
  }

  /** A stable sort by `key`. */
  function SortBy<T>(s: seq<T>, key: T -> seq<Piece>): seq<T>
  {
    if s == [] then [] else Insert(s[0], SortBy(s[1..], key), key)
  }

  lemma {:induction false} InsertPermutes<T>(x: T, s: seq<T>, key: T -> seq<Piece>)
    ensures multiset(Insert(x, s, key)) == multiset(s) + multiset{x}
  {
    if s != [] && KeyLess(key(s[0]), key(x)) {
      InsertPermutes(x, s[1..], key);
      assert s == [s[0]] + s[1..];
    }
  }

  lemma {:induction false} InsertSorted<T>(x: T, s: seq<T>, key: T -> seq<Piece>)
    requires StrictTotal(KeyLess)
    requires SortedBy(s, key)
    ensures SortedBy(Insert(x, s, key), key)
  {
    if s != [] {
      var r := Insert(x, s, key);
      if KeyLess(key(s[0]), key(x)) {
        InsertSorted(x, s[1..], key);
        InsertPermutes(x, s[1..], key);
        forall j | 1 <= j < |r| ensures !KeyLess(key(r[j]), key(s[0])) {
          assert r[j] in multiset(s[1..]) + multiset{x};
        }
      } else {
        forall j | 1 < j < |r| ensures !KeyLess(key(r[j]), key(x)) {
          assert r[j] == s[j - 1];
          NotLessTransitive(key(s[j - 1]), key(s[0]), key(x));
        }
      }
    }
  }

  lemma {:induction false} InsertStable<T>(x: T, s: seq<T>, key: T -> seq<Piece>, k: seq<Piece>)
    requires StrictTotal(KeyLess)
    ensures WithKey(Insert(x, s, key), key, k) == WithKey([x] + s, key, k)
  {
    if s != [] && KeyLess(key(s[0]), key(x)) {
      InsertStable(x, s[1..], key, k);
      assert ([x] + s)[1..] == s;
      assert ([x] + s[1..])[1..] == s[1..];
      assert ([s[0]] + Insert(x, s[1..], key))[1..] == Insert(x, s[1..], key);
      assert key(s[0]) != key(x);
    } else if s == [] {
      assert [x] + s == [x];
    }
  }

  lemma {:induction false} SortByPermutes<T>(s: seq<T>, key: T -> seq<Piece>)
    ensures multiset(SortBy(s, key)) == multiset(s)
  {
    if s != [] {
      SortByPermutes(s[1..], key);
      InsertPermutes(s[0], SortBy(s[1..], key), key);
      assert s == [s[0]] + s[1..];
    }
  }

  lemma {:induction false} SortBySorted<T>(s: seq<T>, key: T -> seq<Piece>)
    requires StrictTotal(KeyLess)
    ensures SortedBy(SortBy(s, key), key)
  {
    if s != [] {
      SortBySorted(s[1..], key);
      InsertSorted(s[0], SortBy(s[1..], key), key);
    }
  }

  lemma {:induction false} SortByStable<T>(s: seq<T>, key: T -> seq<Piece>, k: seq<Piece>)
    requires StrictTotal(KeyLess)
    ensures WithKey(SortBy(s, key), key, k) == WithKey(s, key, k)
  {
    if s != [] {
      var rest := SortBy(s[1..], key);
      SortByStable(s[1..], key, k);
      InsertStable(s[0], rest, key, k);
      assert ([s[0]] + rest)[1..] == rest;
      assert ([s[0]] + s[1..])[1..] == s[1..];
      assert s == [s[0]] + s[1..];
    }
  }

  /** The sort returns a permutation of its input, ordered by key, with equal keys in input order. */
  lemma SortByCorrect<T>(s: seq<T>, key: T -> seq<Piece>)
    ensures multiset(SortBy(s, key)) == multiset(s)
    ensures SortedBy(SortBy(s, key), key)
    ensures forall k :: WithKey(SortBy(s, key), key, k) == WithKey(s, key, k)
  {
    KeyOrder();
    SortByPermutes(s, key);
    SortBySorted(s, key);
    forall k ensures WithKey(SortBy(s, key), key, k) == WithKey(s, key, k) {
      SortByStable(s, key, k);
    }
  }

  // ---------------------------------------------------------------------------
  // natural_sort

  /** Python computes every key before sorting and compares them with `<`: an
      empty address raises `IndexError`, and two keys that differ first at a
      number and a string raise `TypeError`. */
  predicate Sortable<T>(addresses: seq<T>, text: T -> string)
  {
    && (forall i :: 0 <= i < |addresses| ==> text(addresses[i]) != "")
    && AllComparable(addresses, KeyOfText(text))
  }

  /** Every two keys of the elements can be compared. */
  predicate AllComparable<T>(s: seq<T>, key: T -> seq<Piece>)
  {
    forall i, j :: 0 <= i < |s| && 0 <= j < |s| ==> Comparable(key(s[i]), key(s[j]))
  }

  /** `key=self.swap_fields` applied to `(address, address.address)`. */
  function KeyOfText<T>(text: T -> string): T -> seq<Piece>
  {
    x => SortKey(text(x))
  }

  /** `natural_sort`: the addresses ordered by the `swap_fields` key of their text. */
  function NaturalSort<T>(addresses: seq<T>, text: T -> string): (sorted: seq<T>)
    requires Sortable(addresses, text)
    ensures multiset(sorted) == multiset(addresses)
    ensures forall i, j :: 0 <= i < j < |sorted| ==> !KeyLess(SortKey(text(sorted[j])), SortKey(text(sorted[i])))
    ensures forall k :: WithKey(sorted, KeyOfText(text), k) == WithKey(addresses, KeyOfText(text), k)
  {
    SortByCorrect(addresses, KeyOfText(text));
    SortBy(addresses, KeyOfText(text))
  }

  /** Three elements whose keys are strictly decreasing come out reversed. */
  lemma SortDescendingThree<T>(a: T, b: T, c: T, key: T -> seq<Piece>)
    requires KeyLess(key(c), key(b)) && KeyLess(key(b), key(a)) && KeyLess(key(c), key(a))
    ensures SortBy([a, b, c], key) == [c, b, a]
  {
    assert [a, b, c][1..] == [b, c] && [b, c][1..] == [c] && [c][1..] == [];
    assert SortBy([c], key) == Insert(c, [], key) == [c];
    assert Insert(b, [c], key) == [c] + Insert(b, [], key) == [c, b];
    assert SortBy([b, c], key) == [c, b];
    assert [c, b][1..] == [b];
    assert Insert(a, [b], key) == [b] + Insert(a, [], key) == [b, a];
    assert Insert(a, [c, b], key) == [c] + Insert(a, [b], key);
  }

  /** Two keys that differ first at the same kind of element, or not at all, are comparable. */
  lemma ComparableAtHead(a: seq<Piece>, b: seq<Piece>)
    requires a != [] && b != [] && a[0] != b[0] && a[0].Num? == b[0].Num?
    ensures Comparable(a, b) && Comparable(b, a)
  {
  }

  /** An address given as its own text. */
  function AsText(address: string): string { address }

  lemma KeyOfAsText(address: string)
    ensures KeyOfText(AsText)(address) == SortKey(address)
  {
    var f := AsText;
    assert f(address) == address;
    assert KeyOfText(f)(address) == SortKey(f(address));
  }

  /** Keys that start with the same text order by the number after it. */
  lemma HouseNumberOrder(street: string, n: nat, m: nat)
    requires n < m
    ensures KeyLess([Str(street), Num(n)], [Str(street), Num(m)])
  {
    assert [Str(street), Num(n)][1..] == [Num(n)] && [Str(street), Num(m)][1..] == [Num(m)];
  }

  /** A key whose text starts with a space sorts before a key whose text starts with a letter. */
  lemma SpaceBeforeLetter(a: seq<Piece>, b: seq<Piece>)
    requires a != [] && a[0].Str? && a[0].s != [] && a[0].s[0] == ' '
    requires b != [] && b[0].Str? && b[0].s != [] && 'A' <= b[0].s[0] <= 'Z'
    ensures KeyLess(a, b)
  {
    assert PieceLess(a[0], b[0]);
  }

  lemma ComparableHouseNumbers(street: string, n: nat, m: nat)
    ensures Comparable([Str(street), Num(n)], [Str(street), Num(m)])
  {
    assert [Str(street), Num(n)][1..] == [Num(n)] && [Str(street), Num(m)][1..] == [Num(m)];
  }

  /** Three elements whose keys are pairwise comparable. */
  lemma ComparableThree<T>(a: T, b: T, c: T, key: T -> seq<Piece>)
    requires Comparable(key(a), key(b)) && Comparable(key(b), key(a))
    requires Comparable(key(a), key(c)) && Comparable(key(c), key(a))
    requires Comparable(key(b), key(c)) && Comparable(key(c), key(b))
    ensures AllComparable([a, b, c], key)
  {
    ComparableWithItself(key(a));
    ComparableWithItself(key(b));
    ComparableWithItself(key(c));
  }

  /** The keys of two numbered addresses on one street and of a flat. */
  lemma StreetAndFlatKeys(flat: string, street: string, n: nat, m: nat)
    requires street != [] && street[0] == ' ' && forall i :: 0 <= i < |street| ==> !IsDigit(street[i])
    requires flat != [] && 'A' <= flat[0] <= 'Z'
    ensures KeyOfText(AsText)(DecimalString(n) + street) == [Str(street), Num(n)]
    ensures KeyOfText(AsText)(DecimalString(m) + street) == [Str(street), Num(m)]
    ensures var kf := KeyOfText(AsText)(flat); kf != [] && kf[0].Str? && kf[0].s != [] && kf[0].s[0] == flat[0]
  {
    HouseNumberKey(n, street);
    HouseNumberKey(m, street);
    SortKeyOfText(flat);
    SortKeyStartsWithText(flat);
    KeyOfAsText(flat);
    KeyOfAsText(DecimalString(n) + street);
    KeyOfAsText(DecimalString(m) + street);
  }

  /** Two numbered addresses on one street and a flat can be sorted: no number meets a string. */
  lemma StreetAndFlatSortable(flat: string, street: string, n: nat, m: nat)
    requires street != [] && street[0] == ' ' && forall i :: 0 <= i < |street| ==> !IsDigit(street[i])
    requires flat != [] && 'A' <= flat[0] <= 'Z'
    ensures Sortable([flat, DecimalString(m) + street, DecimalString(n) + street], AsText)
  {
    var key := KeyOfText(AsText);
    var low, high := DecimalString(n) + street, DecimalString(m) + street;
    StreetAndFlatKeys(flat, street, n, m);
    ComparableAtHead(key(flat), key(high));
    ComparableAtHead(key(flat), key(low));
    ComparableHouseNumbers(street, n, m);
    ComparableHouseNumbers(street, m, n);
    ComparableThree(flat, high, low, key);
  }

  /** Two addresses on one street, numbered `n < m`, and a flat whose text
      starts with a capital letter: the house numbers come first, in numeric
      order (so `2` before `12`), because the space after a moved house number
      sorts before the letter. Given in the order flat, `m`, `n`, they come
      out reversed. */
  lemma HouseNumbersBeforeFlat(flat: string, street: string, n: nat, m: nat)
    requires n < m
    requires street != [] && street[0] == ' ' && forall i :: 0 <= i < |street| ==> !IsDigit(street[i])
    requires flat != [] && 'A' <= flat[0] <= 'Z'
    ensures var low, high := DecimalString(n) + street, DecimalString(m) + street;
      && Sortable([flat, high, low], AsText)
      && NaturalSort([flat, high, low], AsText) == [low, high, flat]
  {
    var key := KeyOfText(AsText);
    var low, high := DecimalString(n) + street, DecimalString(m) + street;
    StreetAndFlatSortable(flat, street, n, m);
    StreetAndFlatKeys(flat, street, n, m);
    SpaceBeforeLetter(key(high), key(flat));
    SpaceBeforeLetter(key(low), key(flat));
    HouseNumberOrder(street, n, m);
    SortDescendingThree(flat, high, low, key);
  }

  const ExampleFlat := "Flat 1, 9 High Street"
  const ExampleTwelve := "12 High Street"
  const ExampleTwo := "2 High Street"

  /** `2 High Street`, `12 High Street`, then `Flat 1, 9 High Street`. */
  lemma NaturalSortExample()
    ensures Sortable([ExampleFlat, ExampleTwelve, ExampleTwo], AsText)
    ensures NaturalSort([ExampleFlat, ExampleTwelve, ExampleTwo], AsText) == [ExampleTwo, ExampleTwelve, ExampleFlat]
  {
    var street := " High Street";
    assert ExampleTwelve == DecimalString(12) + street;
    assert ExampleTwo == DecimalString(2) + street;
    HouseNumbersBeforeFlat(ExampleFlat, street, 2, 12);
  }
}
