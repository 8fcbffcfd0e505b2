/** The general-purpose helpers: pagination, progress percentage, URL slugs, sorting
    and grouping of records, random codes, title case and the emptiness test. */
module Helpers {
  import opened Base
  import opened Text
  import opened JsModel
  import Numbers
  import Sorting

  // ---- extrairPaginacao ----

  datatype Page = Page(page: int, limit: int, offset: int)

  /** `extrairPaginacao(query)`. */
  function ExtrairPaginacao(page: Param, limit: Param): (r: Page)
    ensures r.page >= 1 && 1 <= r.limit <= 100
    ensures r.offset == (r.page - 1) * r.limit && r.offset >= 0
    ensures page.Absent? ==> r.page == 1
    ensures limit.Absent? ==> r.limit == 20
    ensures page.IntText? && page.n >= 1 ==> r.page == page.n
    ensures limit.IntText? && 1 <= limit.n <= 100 ==> r.limit == limit.n
  {
    var p := if IntOr(page, 1) > 1 then IntOr(page, 1) else 1;
    var l0 := if IntOr(limit, 20) > 1 then IntOr(limit, 20) else 1;
    var l := if l0 < 100 then l0 else 100;
    assert (p - 1) * l >= 0;
    Page(p, l, (p - 1) * l)
  }

  // ---- calcularProgresso ----

  /** `calcularProgresso(concluidos, total)`: a missing or zero total gives 0;
      otherwise the percentage rounded half up. */
  function CalcularProgresso(concluidos: int, total: int): (r: int)
    ensures total == 0 ==> r == 0
    ensures total > 0 ==> 2 * total * r - total <= 200 * concluidos < 2 * total * r + total
  {
    if total == 0 then 0 else Numbers.RoundPercent(concluidos, total)
  }

  /** The progress of a part of the whole lies in [0, 100], and is 100 for the whole. */
  lemma CalcularProgressoRange(concluidos: int, total: int)
    requires 0 <= concluidos <= total
    ensures 0 <= CalcularProgresso(concluidos, total) <= 100
    ensures total > 0 && concluidos == total ==> CalcularProgresso(concluidos, total) == 100
  {
    if total > 0 {
      Numbers.RoundPercentInRange(concluidos, total);
      if concluidos == total {
        Numbers.RoundPercentWhole(total);
      }
    }
  }

  // ---- sanitizarTexto ----

  predicate SlugChar(c: char)
  {
    'a' <= c <= 'z' || IsDigit(c) || c == '-'
  }

  /** The characters `[a-z0-9]` that survive into a slug. */
  predicate Alnum(c: char) { IsLower(c) || IsDigit(c) }

  predicate NotDash(c: char) { c != '-' }

  /** `.replace(/[^a-z0-9]/g, '-')` after lower-casing. */
  function Dashed(s: string): (r: string)
    ensures |r| == |s|
    ensures forall i :: 0 <= i < |s| ==> r[i] == (if IsLower(s[i]) || IsDigit(s[i]) then s[i] else '-')
  {
    seq(|s|, i requires 0 <= i < |s| => if IsLower(s[i]) || IsDigit(s[i]) then s[i] else '-')
  }

  /** `.replace(/-+/g, '-')`. */
  function Collapsed(s: string): (r: string)
    ensures |r| <= |s|
    ensures forall c :: c in r ==> c in s
    ensures s != [] ==> r != [] && r[0] == s[0]
    ensures s != [] ==> r[|r| - 1] == s[|s| - 1]
    ensures forall i :: 0 <= i < |r| - 1 ==> !(r[i] == '-' && r[i + 1] == '-')
  {
    if |s| <= 1 then s
    else
      var rest := Collapsed(s[1..]);
      assert forall c :: c in rest ==> c in s[1..];
      if s[0] == '-' && s[1] == '-' then rest
      else [s[0]] + rest
  }

  /** `.replace(/^-|-$/g, '')`. */
  function TrimDashes(s: string): (r: string)
  {
    if s == "-" then ""
    else
      var a := if s != [] && s[0] == '-' then s[1..] else s;
      if a != [] && a[|a| - 1] == '-' then a[..|a| - 1] else a
  }

  /** Collapsing removes dashes only: the other characters stay, in order. */
  lemma {:induction false} CollapsedKept(s: string)
    ensures FilterSeq(Collapsed(s), NotDash) == FilterSeq(s, NotDash)
  {
    if |s| > 1 {
      var rest := Collapsed(s[1..]);
      CollapsedKept(s[1..]);
      assert s == [s[0]] + s[1..];
      FilterSeqConcat([s[0]], s[1..], NotDash);
      assert FilterSeq([s[0]], NotDash) == FilterSeq([], NotDash) + (if NotDash(s[0]) then [s[0]] else []);
      if !(s[0] == '-' && s[1] == '-') {
        FilterSeqConcat([s[0]], rest, NotDash);
      }
    }
  }

  /** Lower-case letters and digits are kept in place and everything else becomes a
      dash, so the non-dash characters of the result are the `[a-z0-9]` characters. */
  lemma {:induction false} DashedKept(s: string)
    ensures FilterSeq(Dashed(s), NotDash) == FilterSeq(s, Alnum)
  {
    if s != [] {
      var init := s[..|s| - 1];
      assert Dashed(s)[..|s| - 1] == Dashed(init);
      DashedKept(init);
    }
  }

  /** Trimming removes dashes only. */
  lemma TrimDashesKept(s: string)
    ensures FilterSeq(TrimDashes(s), NotDash) == FilterSeq(s, NotDash)
  {
    if s != "-" {
      var a := if s != [] && s[0] == '-' then s[1..] else s;
      if s != [] && s[0] == '-' {
        assert s == [s[0]] + a;
        FilterSeqConcat([s[0]], a, NotDash);
        assert FilterSeq([s[0]], NotDash) == FilterSeq([], NotDash) + [];
      }
      if a != [] && a[|a| - 1] == '-' {
        assert a == a[..|a| - 1] + [a[|a| - 1]];
        FilterSeqConcat(a[..|a| - 1], [a[|a| - 1]], NotDash);
        assert FilterSeq([a[|a| - 1]], NotDash) == FilterSeq([], NotDash) + [];
      }
    } else {
      assert s == [] + ['-'];
    }
  }

  predicate WellFormedSlug(r: string)
  {
    && (forall i :: 0 <= i < |r| ==> SlugChar(r[i]))
    && (forall i :: 0 <= i < |r| - 1 ==> !(r[i] == '-' && r[i + 1] == '-'))
    && (r != [] ==> r[0] != '-' && r[|r| - 1] != '-')
  }

  /** Trimming the edge dashes of a dash-collapsed slug leaves a well-formed one. */
  lemma TrimDashesWellFormed(c: string)
    requires forall i :: 0 <= i < |c| ==> SlugChar(c[i])
    requires forall i :: 0 <= i < |c| - 1 ==> !(c[i] == '-' && c[i + 1] == '-')
    ensures WellFormedSlug(TrimDashes(c)) && |TrimDashes(c)| <= |c|
  {
    if c != "-" {
      var a := if c != [] && c[0] == '-' then c[1..] else c;
      assert forall i :: 0 <= i < |a| ==> SlugChar(a[i]);
      assert forall i :: 0 <= i < |a| - 1 ==> !(a[i] == '-' && a[i + 1] == '-');
      assert a != [] ==> a[0] != '-' by {
        if c != [] && c[0] == '-' && a != [] {
          assert a[0] == c[1];
        }
      }
      var r := TrimDashes(c);
      if a != [] && a[|a| - 1] == '-' {
        assert r == a[..|a| - 1];
        assert forall i :: 0 <= i < |r| ==> r[i] == a[i];
        if r != [] {
          assert r[|r| - 1] == a[|a| - 2];
          assert r[0] == a[0];
        }
      } else {
        assert r == a;
      }
    }
  }

  /** `sanitizarTexto(texto)` for ASCII text (the accent-stripping step is the
      identity there). */
  function SanitizarTexto(texto: Option<string>): (r: string)
    ensures WellFormedSlug(r)
    ensures |r| <= (if texto.Some? then |texto.value| else 0)
    ensures FilterSeq(r, NotDash) == (if texto.Some? then FilterSeq(ToLower(texto.value), Alnum) else [])
  {
    if texto.None? || texto.value == "" then ""
    else
      var d := Dashed(ToLower(texto.value));
      var c := Collapsed(d);
      DashedKept(ToLower(texto.value));
      CollapsedKept(d);
      TrimDashesKept(c);
      assert forall i :: 0 <= i < |c| ==> SlugChar(c[i]) by {
        forall i | 0 <= i < |c| ensures SlugChar(c[i]) {
          assert c[i] in c;
          assert c[i] in d;
        }
      }
      TrimDashesWellFormed(c);
      TrimDashes(c)
  }

  /** A well-formed slug goes through every step unchanged. */
  lemma SlugFixedPoint(r: string)
    requires WellFormedSlug(r)
    ensures r != [] ==> SanitizarTexto(Some(r)) == r
  {
    if r != [] {
      SanitizarTextoSteps(r);
      SlugCharsKept(r);
      CollapsedKeeps(r);
      TrimDashesKeeps(r);
    }
  }

  /** Text without a dash at either edge is not trimmed. */
  lemma TrimDashesKeeps(r: string)
    requires r != [] ==> r[0] != '-' && r[|r| - 1] != '-'
    ensures TrimDashes(r) == r
  {
  }

  /** Lower-casing and the dash replacement leave slug characters alone. */
  lemma SlugCharsKept(r: string)
    requires forall i :: 0 <= i < |r| ==> SlugChar(r[i])
    ensures ToLower(r) == r && Dashed(r) == r
  {
    assert forall i :: 0 <= i < |r| ==> ToLower(r)[i] == r[i];
    assert forall i :: 0 <= i < |r| ==> Dashed(r)[i] == r[i];
  }

  lemma SanitizarTextoSteps(t: string)
    requires t != []
    ensures SanitizarTexto(Some(t)) == TrimDashes(Collapsed(Dashed(ToLower(t))))
  {
  }

  lemma {:induction false} CollapsedKeeps(s: string)
    requires forall i :: 0 <= i < |s| - 1 ==> !(s[i] == '-' && s[i + 1] == '-')
    ensures Collapsed(s) == s
  {
    if |s| > 1 {
      CollapsedKeeps(s[1..]);
    }
  }

  /** Slugging is idempotent. */
  lemma SanitizarTextoIdempotent(texto: Option<string>)
    ensures SanitizarTexto(Some(SanitizarTexto(texto))) == SanitizarTexto(texto)
  {
    SlugFixedPoint(SanitizarTexto(texto));
  }

  // ---- ordenarPor ----

  /** `ordenarPor(items, propriedade, ordem)` for records whose property is numeric:
      `key` reads it. The copy is sorted; the input sequence is a value and stays as
      it is. */
  function OrdenarPor<T>(items: seq<T>, key: T -> int, ordem: string): (r: seq<T>)
    ensures multiset(r) == multiset(items)
  {
    Sorting.SortBy(items, (a, b) => if ordem == "asc" then key(a) <= key(b) else key(a) >= key(b))
  }

  lemma OrdenarPorSorted<T>(items: seq<T>, key: T -> int, ordem: string)
    ensures var r := OrdenarPor(items, key, ordem);
      forall i, j :: 0 <= i < j < |r| ==> if ordem == "asc" then key(r[i]) <= key(r[j]) else key(r[i]) >= key(r[j])
  {
    var le := (a, b) => if ordem == "asc" then key(a) <= key(b) else key(a) >= key(b);
    Sorting.SortBySorted(items, le);
  }

  /** `ordenarPor` on a text property none of whose values reads as a number: the
      comparator falls back to `<` and `>` on the strings themselves. */
  function OrdenarPorTexto<T>(items: seq<T>, key: T -> string, ordem: string): (r: seq<T>)
    ensures multiset(r) == multiset(items)
  {
    Sorting.SortBy(items, (a, b) => if ordem == "asc" then TextLe(key(a), key(b)) else TextLe(key(b), key(a)))
  }

  lemma OrdenarPorTextoSorted<T>(items: seq<T>, key: T -> string, ordem: string)
    ensures var r := OrdenarPorTexto(items, key, ordem);
      forall i, j :: 0 <= i < j < |r| ==>
        if ordem == "asc" then TextLe(key(r[i]), key(r[j])) else TextLe(key(r[j]), key(r[i]))
  {
    var le := (a, b) => if ordem == "asc" then TextLe(key(a), key(b)) else TextLe(key(b), key(a));
    forall x, y | x in items && y in items ensures le(x, y) || le(y, x) {
      TextLeTotal(key(x), key(y));
    }
    forall x, y, z | x in items && y in items && z in items && le(x, y) && le(y, z) ensures le(x, z) {
      if ordem == "asc" {
        TextLeTransitive(key(x), key(y), key(z));
      } else {
        TextLeTransitive(key(z), key(y), key(x));
      }
    }
    Sorting.SortBySorted(items, le);
  }

  // ---- agruparPor ----

  /** The elements of `s` whose key is `k`, in their order in `s`. */
  function Group<T, K(==)>(s: seq<T>, key: T -> K, k: K): (g: seq<T>)
    ensures forall i :: 0 <= i < |g| ==> g[i] in s && key(g[i]) == k
    ensures forall i :: 0 <= i < |s| && key(s[i]) == k ==> s[i] in g
    ensures |g| <= |s|
  {
    if s == [] then []
    else
      var init := s[..|s| - 1];
      assert s == init + [s[|s| - 1]];
      Group(init, key, k) + (if key(s[|s| - 1]) == k then [s[|s| - 1]] else [])
  }

  /** No element is lost or repeated: an element with key `k` occurs in the group as
      often as in `s`. */
  lemma {:induction false} GroupCount<T, K>(s: seq<T>, key: T -> K, k: K)
    ensures forall i :: 0 <= i < |s| ==> multiset(Group(s, key, k))[s[i]] == if key(s[i]) == k then multiset(s)[s[i]] else 0
  {
    if s != [] {
      var init := s[..|s| - 1];
      var last := s[|s| - 1];
      assert s == init + [last];
      GroupCount(init, key, k);
      assert multiset(s) == multiset(init) + multiset{last};
      forall i | 0 <= i < |s|
        ensures multiset(Group(s, key, k))[s[i]] == if key(s[i]) == k then multiset(s)[s[i]] else 0
      {
        if s[i] !in init {
          assert s[i] == last;
          assert multiset(init)[s[i]] == 0;
          assert multiset(Group(init, key, k))[s[i]] == 0;
        } else {
          var j :| 0 <= j < |init| && init[j] == s[i];
        }
      }
    }
  }

  /** Grouping keeps the input order: the group of a concatenation is the group of the
      first part followed by the group of the second. */
  lemma {:induction false} GroupConcat<T, K>(a: seq<T>, b: seq<T>, key: T -> K, k: K)
    ensures Group(a + b, key, k) == Group(a, key, k) + Group(b, key, k)
  {
    if b != [] {
      var init := b[..|b| - 1];
      var last := b[|b| - 1];
      assert (a + b)[..|a + b| - 1] == a + init;
      assert (a + b)[|a + b| - 1] == last;
      GroupConcat(a, init, key, k);
    } else {
      assert a + b == a;
    }
  }

  lemma GroupSnoc<T, K>(s: seq<T>, x: T, key: T -> K, k: K)
    ensures Group(s + [x], key, k) == Group(s, key, k) + if key(x) == k then [x] else []
  {
    assert (s + [x])[..|s|] == s;
  }

  /** `agruparPor(items, propriedade)`: the accumulator object becomes a map from key
      to the items of its elements. */
  method AgruparPor<T, K(==)>(items: seq<T>, key: T -> K) returns (acc: map<K, seq<T>>)
    ensures forall k :: k in acc <==> exists x :: x in items && key(x) == k
    ensures forall k :: k in acc ==> acc[k] == Group(items, key, k)
  {
    acc := map[];
    var i := 0;
    while i < |items|
      invariant 0 <= i <= |items|
      invariant forall k :: k in acc <==> exists x :: x in items[..i] && key(x) == k
      invariant forall k :: k in acc ==> acc[k] == Group(items[..i], key, k)
      invariant forall k :: k !in acc ==> Group(items[..i], key, k) == []
    {
      var obj := items[i];
      var k := key(obj);
      assert items[..i + 1] == items[..i] + [obj];
      assert items[..i + 1][..i] == items[..i];
      if k !in acc {
        assert Group(items[..i], key, k) == [];
        acc := acc[k := []];
      }
      forall k' ensures Group(items[..i + 1], key, k') == Group(items[..i], key, k') + if k' == k then [obj] else [] {
        GroupSnoc(items[..i], obj, key, k');
      }
      acc := acc[k := acc[k] + [obj]];
      i := i + 1;
    }
    assert items[..i] == items;
  }

  // ---- gerarCodigo ----

  const Digits := "0123456789"
  const Alphanumerics := "ABCDEFGHIJKLMNOPQRSTUVWXYZ0123456789"

  /** `gerarCodigo(tamanho, numerico)`: `draws[i]` is the i-th
      `Math.floor(Math.random() * caracteres.length)`. */
  method GerarCodigo(tamanho: int, numerico: bool, draws: seq<nat>) returns (codigo: string)
    requires |draws| >= tamanho
    requires forall i :: 0 <= i < |draws| ==> draws[i] < (if numerico then |Digits| else |Alphanumerics|)
    ensures |codigo| == (if tamanho > 0 then tamanho else 0)
    ensures numerico ==> forall i :: 0 <= i < |codigo| ==> IsDigit(codigo[i])
    ensures !numerico ==> forall i :: 0 <= i < |codigo| ==> IsUpper(codigo[i]) || IsDigit(codigo[i])
    ensures forall i :: 0 <= i < |codigo| ==>
      codigo[i] == (if numerico then Digits else Alphanumerics)[draws[i]]
  {
    var caracteres := if numerico then Digits else Alphanumerics;
    codigo := "";
    var i := 0;
    while i < tamanho
      invariant 0 <= i && (tamanho > 0 ==> i <= tamanho) && (tamanho <= 0 ==> i == 0)
      invariant |codigo| == i
      invariant forall j :: 0 <= j < i ==> codigo[j] == caracteres[draws[j]]
    {
      codigo := codigo + [caracteres[draws[i]]];
      i := i + 1;
    }
    assert forall j :: 0 <= j < |Digits| ==> IsDigit(Digits[j]);
    assert forall j :: 0 <= j < |Alphanumerics| ==> IsUpper(Alphanumerics[j]) || IsDigit(Alphanumerics[j]);
  }

  // ---- paraTitulo ----

  /** The global replacement of each match of "a word character followed by any
      non-whitespace run" by its callback, as a scan:
      `inWord` says whether the scan is inside a match. */
  function Titled(s: string, inWord: bool): (r: string)
    ensures |r| == |s|
  {
    if s == [] then []
    else
      var c := s[0];
      if IsSpace(c) then [c] + Titled(s[1..], false)
      else if inWord then [ToLowerChar(c)] + Titled(s[1..], true)
      else if IsWordChar(c) then [ToUpperChar(c)] + Titled(s[1..], true)
      else [c] + Titled(s[1..], false)
  }

  /** `paraTitulo(str)`. */
  function ParaTitulo(str: Option<string>): (r: string)
    ensures str.None? ==> r == ""
    ensures str.Some? ==> |r| == |str.value|
  {
    if str.None? then "" else Titled(str.value, false)
  }

  /** The start of the whitespace-free run that contains position `i`. */
  function RunStart(s: string, i: nat): (b: nat)
    requires i <= |s|
    ensures b <= i
    ensures forall j :: b <= j < i ==> !IsSpace(s[j])
    ensures b > 0 ==> IsSpace(s[b - 1])
  {
    if i == 0 then 0 else if IsSpace(s[i - 1]) then i else RunStart(s, i - 1)
  }

  /** A word character occurs in the run before position `i`: a match has started. */
  predicate Started(s: string, i: nat)
    requires i <= |s|
  {
    exists j :: RunStart(s, i) <= j < i && IsWordChar(s[j])
  }

  /** What title case does at position `i`: whitespace and characters before the
      first word character of their run are kept; that first word character is
      upper-cased; the rest of the run is lower-cased. */
  function TitleCaseAt(s: string, i: nat): char
    requires i < |s|
  {
    if IsSpace(s[i]) then s[i]
    else if Started(s, i) then ToLowerChar(s[i])
    else if IsWordChar(s[i]) then ToUpperChar(s[i])
    else s[i]
  }

  /** Whether a match has started moves along a run as the scan's `inWord` flag does. */
  lemma StartedStep(s: string, k: nat)
    requires k < |s|
    ensures Started(s, k + 1) == (!IsSpace(s[k]) && (Started(s, k) || IsWordChar(s[k])))
  {
    if !IsSpace(s[k]) {
      assert RunStart(s, k + 1) == RunStart(s, k);
      if IsWordChar(s[k]) { assert RunStart(s, k + 1) <= k; }
      if Started(s, k) {
        var j :| RunStart(s, k) <= j < k && IsWordChar(s[j]);
        assert RunStart(s, k + 1) <= j < k + 1;
      }
      if Started(s, k + 1) && !IsWordChar(s[k]) {
        var j :| RunStart(s, k + 1) <= j < k + 1 && IsWordChar(s[j]);
        assert j < k;
      }
    }
  }

  /** One step of the scan: a later position of the output is read off the scan of the tail. */
  lemma TitledTail(t: string, inWord: bool, j: nat)
    requires 0 < j < |t|
    ensures Titled(t, inWord)[j] == Titled(t[1..], !IsSpace(t[0]) && (inWord || IsWordChar(t[0])))[j - 1]
  {
  }

  /** The first position of the scan's output. */
  lemma TitledHead(t: string, inWord: bool)
    requires 0 < |t|
    ensures Titled(t, inWord)[0] ==
      if IsSpace(t[0]) then t[0]
      else if inWord then ToLowerChar(t[0])
      else if IsWordChar(t[0]) then ToUpperChar(t[0])
      else t[0]
  {
  }

  lemma {:induction false} TitledFrom(s: string, k: nat, i: nat)
    requires k <= i < |s|
    ensures Titled(s[k..], Started(s, k))[i - k] == TitleCaseAt(s, i)
    decreases i - k
  {
    if k < i {
      assert s[k..][1..] == s[k + 1..] && s[k..][0] == s[k];
      StartedStep(s, k);
      TitledTail(s[k..], Started(s, k), i - k);
      TitledFrom(s, k + 1, i);
    } else {
      assert s[k..][0] == s[k];
      TitledHead(s[k..], Started(s, k));
    }
  }

  /** Title case position by position. */
  lemma ParaTituloAt(s: string, i: nat)
    requires i < |s|
    ensures ParaTitulo(Some(s))[i] == TitleCaseAt(s, i)
  {
    assert !Started(s, 0);
    assert s[0..] == s;
    TitledFrom(s, 0, i);
  }

  // ---- estaVazio ----

  /** `estaVazio(obj)`: only non-empty strings, objects with keys and non-empty
      arrays are not empty. */
  function EstaVazio(obj: JsValue): (r: bool)
    ensures !r <==> (obj.JString? && obj.s != "") || (obj.JObject? && obj.keys != []) || (obj.JArray? && obj.length > 0)
  {
    Falsy(obj) || KeyCount(obj) == 0
  }
}
