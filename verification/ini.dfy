/**
 * What configparser hands to the merger: the options of one section as an
 * insertion-ordered dictionary, and the sections of one parsed source in the
 * order `sections()` lists them.
 */
module Ini {
  import opened Wrappers

  /** An option's value; `None` for a line without `=` (the parser allows options without values). */
  type Value = Option<string>

  /** The options of one section, in insertion order (a Python dict from option name to value). */
  type Options = seq<(string, Value)>

  /** The sections of one parsed source, in the order its parser lists them. */
  type Layer = seq<(string, Options)>

  predicate Defines(o: Options, k: string)
  {
    exists i :: 0 <= i < |o| && o[i].0 == k
  }

  /** `o.get(k)`, with `None` for an absent option; the last entry for `k` wins. */
  function Lookup(o: Options, k: string): (r: Option<Value>)
    ensures r.Some? <==> Defines(o, k)
    ensures r.Some? ==> (k, r.value) in o
  {
    if o == [] then None
    else if o[|o| - 1].0 == k then Some(o[|o| - 1].1)
    else
      var r := Lookup(o[..|o| - 1], k);
      assert forall i :: 0 <= i < |o| - 1 ==> o[..|o| - 1][i] == o[i];
      r
  }

  /** The option names of `o`, in order. */
  function Names(o: Options): (r: seq<string>)
    ensures |r| == |o| && forall i :: 0 <= i < |o| ==> r[i] == o[i].0
  {
    seq(|o|, i requires 0 <= i < |o| => o[i].0)
  }

  /** `o[k] = v` on a dict: an existing option keeps its place, a new one goes last. */
  function Put(o: Options, k: string, v: Value): Options
  {
    if Defines(o, k) then seq(|o|, i requires 0 <= i < |o| => if o[i].0 == k then (k, v) else o[i])
    else o + [(k, v)]
  }

  /**
   * After `o[k] = v`, `k` maps to `v` and every other option keeps its value;
   * the option names keep their order, a new name going last.
   */
  lemma PutMeaning(o: Options, k: string, v: Value)
    ensures Lookup(Put(o, k, v), k) == Some(v)
    ensures forall k' :: k' != k ==> Lookup(Put(o, k, v), k') == Lookup(o, k')
    ensures Defines(o, k) ==> Names(Put(o, k, v)) == Names(o)
    ensures !Defines(o, k) ==> Names(Put(o, k, v)) == Names(o) + [k]
  {
    var r := Put(o, k, v);
    if Defines(o, k) {
      ReplacedLookup(o, k, v, r);
    } else {
      assert r[..|r| - 1] == o;
    }
  }

  lemma ReplacedLookup(o: Options, k: string, v: Value, r: Options)
    requires Defines(o, k)
    requires |r| == |o| && forall i :: 0 <= i < |o| ==> r[i] == if o[i].0 == k then (k, v) else o[i]
    ensures Lookup(r, k) == Some(v)
    ensures forall k' :: k' != k ==> Lookup(r, k') == Lookup(o, k')
  {
    ReplacedLookupSame(o, k, v, r);
    forall k' | k' != k ensures Lookup(r, k') == Lookup(o, k') {
      ReplacedLookupOther(o, k, k', v, r);
    }
  }

  lemma {:induction false} ReplacedLookupSame(o: Options, k: string, v: Value, r: Options)
    requires Defines(o, k)
    requires |r| == |o| && forall i :: 0 <= i < |o| ==> r[i] == if o[i].0 == k then (k, v) else o[i]
    ensures Lookup(r, k) == Some(v)
  {
    var n := |o| - 1;
    if o[n].0 != k {
      var o', r' := o[..n], r[..n];
      assert Defines(o', k) by {
        var i :| 0 <= i < |o| && o[i].0 == k;
        assert o'[i].0 == k;
      }
      ReplacedLookupSame(o', k, v, r');
    }
  }

  lemma {:induction false} ReplacedLookupOther(o: Options, k: string, k': string, v: Value, r: Options)
    requires k' != k
    requires |r| == |o| && forall i :: 0 <= i < |o| ==> r[i] == if o[i].0 == k then (k, v) else o[i]
    ensures Lookup(r, k') == Lookup(o, k')
  {
    if o != [] {
      ReplacedLookupOther(o[..|o| - 1], k, k', v, r[..|r| - 1]);
    }
  }

  /**
   * Setting every option of `p`, in order, on top of `o`.
   */
  function PutAll(o: Options, p: Options): Options
    decreases |p|
  {
    if p == [] then o
    else Put(PutAll(o, p[..|p| - 1]), p[|p| - 1].0, p[|p| - 1].1)
  }

  /** After setting every option of `p`, an option `p` defines has `p`'s value (its last), and every other keeps its value in `o`. */
  lemma {:induction false} PutAllMeaning(o: Options, p: Options)
    ensures forall k :: Lookup(PutAll(o, p), k) == if Defines(p, k) then Lookup(p, k) else Lookup(o, k)
    decreases |p|
  {
    if p != [] {
      var q := p[..|p| - 1];
      PutAllMeaning(o, q);
      PutMeaning(PutAll(o, q), p[|p| - 1].0, p[|p| - 1].1);
      forall k ensures Defines(p, k) <==> Defines(q, k) || p[|p| - 1].0 == k {
        DefinesInit(p, k);
      }
    }
  }

  /** Setting one more option of `p` is one more `Put`. */
  lemma PutAllPrefixStep(o: Options, p: Options, j: nat)
    requires j < |p|
    ensures PutAll(o, p[..j + 1]) == Put(PutAll(o, p[..j]), p[j].0, p[j].1)
  {
    assert p[..j + 1][..j] == p[..j];
  }

  lemma DefinesInit(p: Options, k: string)
    requires p != []
    ensures Defines(p, k) <==> Defines(p[..|p| - 1], k) || p[|p| - 1].0 == k
  {
    var q := p[..|p| - 1];
    if Defines(p, k) && p[|p| - 1].0 != k {
      var i :| 0 <= i < |p| && p[i].0 == k;
      assert q[i].0 == k;
    }
    if Defines(q, k) {
      var i :| 0 <= i < |q| && q[i].0 == k;
      assert p[i].0 == k;
    }
  }

  /** The names of the sections of a layer, in order. */
  function SectionNames(l: Layer): (r: seq<string>)
    ensures |r| == |l| && forall i :: 0 <= i < |l| ==> r[i] == l[i].0
  {
    seq(|l|, i requires 0 <= i < |l| => l[i].0)
  }

  /** `parser.has_section(name)` for a parsed source. */
  predicate LayerHas(l: Layer, name: string)
  {
    name in SectionNames(l)
  }

  /**
   * The value a layer gives to option `k` of section `s`: that of the last
   * entry for `s` that defines `k`, or `None` when no entry does.
   */
  function LayerLookup(l: Layer, s: string, k: string): (r: Option<Value>)
  {
    if l == [] then None
    else
      var n := |l| - 1;
      if l[n].0 == s && Defines(l[n].1, k) then Lookup(l[n].1, k)
      else LayerLookup(l[..n], s, k)
  }

  /** A layer gives a value to `s.k` exactly when one of its entries for `s` defines `k`, and then that entry's value. */
  lemma {:induction false} LayerLookupMeaning(l: Layer, s: string, k: string)
    ensures LayerLookup(l, s, k).Some? ==> exists i :: 0 <= i < |l| && l[i].0 == s && Lookup(l[i].1, k) == LayerLookup(l, s, k)
    ensures LayerLookup(l, s, k).None? <==> forall i :: 0 <= i < |l| && l[i].0 == s ==> !Defines(l[i].1, k)
  {
    if l != [] {
      var n := |l| - 1;
      LayerLookupMeaning(l[..n], s, k);
      assert forall i :: 0 <= i < n ==> l[..n][i] == l[i];
    }
  }
}
