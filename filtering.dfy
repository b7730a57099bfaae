/** The category filter of the listing page: a selector key is resolved to the
    label stored in `tema`, and the list is narrowed to the records carrying it. */
module Filtering {
  import opened Records

  /** The selector key that turns filtering off. */
  const AllKey: string := "todos"

  /** Selector key to the human-readable label that submissions store in `tema`. */
  const TemaLabels: map<string, string> := map[
    "roles" := "Roles",
    "fatiga" := "Fatiga",
    "sugerencias" := "Sugerencias",
    "denuncias" := "Denuncias",
    "dudas" := "Dudas",
    "otro" := "Otro"
  ]

  /** The label a key is matched against: its entry in the label map, falling
      back to the key itself when the entry is missing or empty. */
  function LabelFor(key: string): (tema: string)
    ensures key in TemaLabels ==> tema == TemaLabels[key] && tema != ""
    ensures key !in TemaLabels ==> tema == key
  {
    if key in TemaLabels && TemaLabels[key] != "" then TemaLabels[key] else key
  }

  /** The records of `items` whose `tema` is exactly `wanted`, in their order. */
  function KeepTema(items: seq<Inquietud>, wanted: string): (r: seq<Inquietud>)
    ensures |r| <= |items|
    ensures forall x :: x in r ==> x in items && x.tema == wanted
  {
    if items == [] then []
    else if items[0].tema == wanted then [items[0]] + KeepTema(items[1..], wanted)
    else KeepTema(items[1..], wanted)
  }

  /** The records the page lists for the selected filter key. */
  function FilterInquietudes(items: seq<Inquietud>, key: string): (r: seq<Inquietud>)
    ensures key == AllKey ==> r == items
    ensures key != AllKey ==> forall x :: x in r ==> x in items && x.tema == LabelFor(key)
  {
    if key == AllKey then items else KeepTema(items, LabelFor(key))
  }

  /** Whether a record is listed under a filter key. */
  predicate Matches(x: Inquietud, key: string) {
    key == AllKey || x.tema == LabelFor(key)
  }

  /** Filtering distributes over concatenation: the kept records of each part
      stay together and in their original relative order. */
  lemma {:induction false} KeepTemaAppend(a: seq<Inquietud>, b: seq<Inquietud>, wanted: string)
    ensures KeepTema(a + b, wanted) == KeepTema(a, wanted) + KeepTema(b, wanted)
  {
    if a == [] {
      assert a + b == b;
    } else {
      assert (a + b)[1..] == a[1..] + b;
      KeepTemaAppend(a[1..], b, wanted);
    }
  }

  /** Every record whose tema is `wanted` is kept as often as it occurs, and no other record is. */
  lemma {:induction false} KeepTemaCount(items: seq<Inquietud>, wanted: string, x: Inquietud)
    ensures multiset(KeepTema(items, wanted))[x] == if x.tema == wanted then multiset(items)[x] else 0
  {
    if items != [] {
      KeepTemaCount(items[1..], wanted, x);
      assert items == [items[0]] + items[1..];
    }
  }

  /** Filtering an already filtered list changes nothing. */
  lemma {:induction false} KeepTemaIdempotent(items: seq<Inquietud>, wanted: string)
    ensures KeepTema(KeepTema(items, wanted), wanted) == KeepTema(items, wanted)
  {
    if items != [] {
      KeepTemaIdempotent(items[1..], wanted);
    }
  }

  /** A key selects exactly the records that match it, each as often as it occurs,
      and the selection keeps the list's order (it distributes over concatenation). */
  lemma FilterExactly(items: seq<Inquietud>, key: string, x: Inquietud)
    ensures multiset(FilterInquietudes(items, key))[x] == if Matches(x, key) then multiset(items)[x] else 0
    ensures forall a, b :: items == a + b ==>
      FilterInquietudes(items, key) == FilterInquietudes(a, key) + FilterInquietudes(b, key)
  {
    if key != AllKey {
      KeepTemaCount(items, LabelFor(key), x);
      forall a, b | items == a + b
        ensures FilterInquietudes(items, key) == FilterInquietudes(a, key) + FilterInquietudes(b, key)
      {
        KeepTemaAppend(a, b, LabelFor(key));
      }
    }
  }

  /** A record put in front of the list is listed first when it matches the
      key and is not listed otherwise; the rest of the listing is unchanged. */
  lemma FilterPrepend(x: Inquietud, items: seq<Inquietud>, key: string)
    ensures FilterInquietudes([x] + items, key)
         == (if Matches(x, key) then [x] else []) + FilterInquietudes(items, key)
  {
    if key != AllKey {
      KeepTemaAppend([x], items, LabelFor(key));
    }
  }

  /** Selecting the same filter twice gives what selecting it once gives. */
  lemma FilterIdempotent(items: seq<Inquietud>, key: string)
    ensures FilterInquietudes(FilterInquietudes(items, key), key) == FilterInquietudes(items, key)
  {
    if key != AllKey {
      KeepTemaIdempotent(items, LabelFor(key));
    }
  }
}
