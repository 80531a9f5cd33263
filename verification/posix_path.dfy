/** `os.path.split` for POSIX paths. */
module PosixPath {

  /** The index just after the last `/` of `p`, or 0 (`p.rfind('/') + 1`). */
  function AfterLastSlash(p: string): (n: nat)
    ensures n <= |p|
    ensures n > 0 ==> p[n - 1] == '/'
    ensures forall i :: n <= i < |p| ==> p[i] != '/'
  {
    if p == [] then 0
    else if p[|p| - 1] == '/' then |p|
    else AfterLastSlash(p[..|p| - 1])
  }

  predicate AllSlashes(s: string)
  {
    forall i :: 0 <= i < |s| ==> s[i] == '/'
  }

  /** `s.rstrip('/')`. */
  function RStripSlashes(s: string): (r: string)
    ensures |r| <= |s| && r == s[..|r|]
    ensures r == [] || r[|r| - 1] != '/'
    ensures forall i :: |r| <= i < |s| ==> s[i] == '/'
  {
    if s != [] && s[|s| - 1] == '/' then RStripSlashes(s[..|s| - 1]) else s
  }

  /** A head that is not all slashes keeps something once its trailing slashes go, and the slashes are what lies between. */
  lemma StrippedHead(p: string, i: nat)
    requires i <= |p| && p[..i] != [] && !AllSlashes(p[..i])
    ensures var h := RStripSlashes(p[..i]);
      && h != [] && p == h + p[|h|..i] + p[i..] && AllSlashes(p[|h|..i])
  {
    var head := p[..i];
    var h := RStripSlashes(head);
    var j :| 0 <= j < |head| && head[j] != '/';
    assert |h| > j;
    assert p[|h|..i] == head[|h|..];
    assert p == h + p[|h|..i] + p[i..];
  }

  /**
   * What `os.path.split(p)` promises: `p` is `head`, a run of slashes, then
   * `tail`; `tail` holds no slash and follows the last slash of `p` (or is
   * all of `p`); `head` is empty exactly when `p` has no slash, and it keeps
   * its trailing slashes only when it is made of nothing else.
   */
  predicate SplitsAs(p: string, head: string, tail: string)
  {
    && |head| + |tail| <= |p|
    && p == head + p[|head|..|p| - |tail|] + tail
    && AllSlashes(p[|head|..|p| - |tail|])
    && (forall i :: 0 <= i < |tail| ==> tail[i] != '/')
    && (|tail| < |p| ==> p[|p| - |tail| - 1] == '/')
    && (head == [] <==> forall i :: 0 <= i < |p| ==> p[i] != '/')
    && (head != [] && head[|head| - 1] == '/' ==> AllSlashes(head) && |head| + |tail| == |p|)
  }

  /** `os.path.split(p)`: the tail after the last slash, and the head before it with its trailing slashes stripped unless it is all slashes. */
  function Split(p: string): (string, string)
  {
    var i := AfterLastSlash(p);
    var head := p[..i];
    if head != [] && !AllSlashes(head) then (RStripSlashes(head), p[i..]) else (head, p[i..])
  }

  /** `Split` meets the description of `os.path.split`. */
  lemma SplitMeaning(p: string)
    ensures SplitsAs(p, Split(p).0, Split(p).1)
  {
    var i := AfterLastSlash(p);
    var head, tail := p[..i], p[i..];
    assert p == head + tail;
    if head != [] && !AllSlashes(head) {
      StrippedHead(p, i);
    } else {
      assert p[|head|..|p| - |tail|] == [];
    }
  }

  /** The description fixes the split: `Split` is the only pair that meets it. */
  lemma SplitUnique(p: string, head: string, tail: string)
    requires SplitsAs(p, head, tail)
    ensures (head, tail) == Split(p)
  {
    SplitMeaning(p);
    var (head', tail') := Split(p);
    SameTail(p, tail, tail');
    SameTail(p, tail', tail);
    assert |tail| == |tail'|;
    assert tail == p[|p| - |tail|..] && tail' == p[|p| - |tail'|..];
    var m := p[..|p| - |tail|];
    assert head == m[..|head|] && head' == m[..|head'|];
    assert AllSlashes(m[|head|..]) && AllSlashes(m[|head'|..]);
    if head != [] {
      SameHead(m, head, head');
      SameHead(m, head', head);
    }
  }

  /** Two tails of a split: neither is longer than the other. */
  lemma SameTail(p: string, t: string, t': string)
    requires |t| <= |p| && |t'| <= |p|
    requires forall i :: 0 <= i < |t'| ==> t'[i] != '/'
    requires t' == p[|p| - |t'|..]
    requires |t| < |p| ==> p[|p| - |t| - 1] == '/'
    ensures |t| >= |t'|
  {
    assert forall j :: |p| - |t'| <= j < |p| ==> p[j] == t'[j - (|p| - |t'|)];
  }

  /** Two heads of a split before the same tail: neither is longer than the other. */
  lemma SameHead(m: string, h: string, h': string)
    requires 0 < |h| <= |m| && |h'| <= |m|
    requires h == m[..|h|] && AllSlashes(m[|h|..])
    requires h' == m[..|h'|] && AllSlashes(m[|h'|..])
    requires h[|h| - 1] == '/' ==> |h| == |m|
    requires h' != [] && h'[|h'| - 1] == '/' ==> AllSlashes(h') && |h'| == |m|
    ensures |h'| <= |h|
  {
    assert forall i :: |h| <= i < |m| ==> m[i] == m[|h|..][i - |h|];
    if h' != [] && h'[|h'| - 1] == '/' {
      assert h[|h| - 1] == h'[|h| - 1];
    } else if h' != [] {
      assert m[|h'| - 1] != '/';
    }
  }
}
