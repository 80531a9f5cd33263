/**
 * The second reading pass of `DosboxConfigParser.read`: the raw lines of a
 * configuration file are scanned once, and every line after the first
 * `[autoexec]` header is kept, right-stripped, in file order.
 */
module AutoexecCapture {
  import opened Text

  /** A line opens the autoexec block when its stripped text starts with `[autoexec]`. */
  predicate IsAutoexecHeader(line: string)
  {
    StartsWith(Strip(line), "[autoexec]")
  }

  predicate HasHeader(lines: seq<string>)
  {
    exists j :: 0 <= j < |lines| && IsAutoexecHeader(lines[j])
  }

  /** The index of the first autoexec header, or `|lines|` when there is none. */
  function FirstHeader(lines: seq<string>): (h: nat)
    ensures h <= |lines|
    ensures forall j :: 0 <= j < h ==> !IsAutoexecHeader(lines[j])
    ensures h < |lines| ==> IsAutoexecHeader(lines[h])
    ensures h == |lines| <==> !HasHeader(lines)
  {
    if lines == [] then 0
    else if IsAutoexecHeader(lines[0]) then 0
    else 1 + FirstHeader(lines[1..])
  }

  /** Every line right-stripped, in order. */
  function RStripAll(lines: seq<string>): (r: seq<string>)
    ensures |r| == |lines| && forall i :: 0 <= i < |lines| ==> r[i] == RStrip(lines[i])
  {
    seq(|lines|, i requires 0 <= i < |lines| => RStrip(lines[i]))
  }

  lemma RStripAllAppend(a: seq<string>, b: seq<string>)
    ensures RStripAll(a + b) == RStripAll(a) + RStripAll(b)
  {
  }

  lemma RStripAllExtend(lines: seq<string>, lo: nat, hi: nat)
    requires lo <= hi < |lines|
    ensures RStripAll(lines[lo..hi + 1]) == RStripAll(lines[lo..hi]) + [RStrip(lines[hi])]
  {
    assert lines[lo..hi + 1] == lines[lo..hi] + [lines[hi]];
    RStripAllAppend(lines[lo..hi], [lines[hi]]);
  }

  /** The autoexec lines a file yields: everything after its first header, right-stripped. */
  function Captured(lines: seq<string>): seq<string>
  {
    var h := FirstHeader(lines);
    if h == |lines| then [] else RStripAll(lines[h + 1..])
  }

  /**
   * The scanning loop of the second pass, with its `in_section` flag: it
   * returns exactly `Captured(lines)`.
   */
  method CaptureAutoexec(lines: seq<string>) returns (captured: seq<string>)
    ensures captured == Captured(lines)
  {
    captured := [];
    var inSection := false;
    ghost var h := FirstHeader(lines);
    for i := 0 to |lines|
      invariant !inSection ==> captured == [] && i <= h
      invariant inSection ==> h < i && captured == RStripAll(lines[h + 1..i])
    {
      if inSection {
        RStripAllExtend(lines, h + 1, i);
        captured := captured + [RStrip(lines[i])];
      } else {
        var isHeader := IsAutoexecHeader(lines[i]);
        if isHeader {
          assert i == h;
          inSection := true;
          assert lines[h + 1..i + 1] == [];
        }
      }
    }
    if inSection {
      assert lines[h + 1..|lines|] == lines[h + 1..];
    } else {
      assert h == |lines|;
    }
  }

  /**
   * The header itself is not captured, and every later line is, in order,
   * including later section headers: with no header before `h`,
   * the capture of `pre + [h] + post` is `post` right-stripped.
   */
  lemma CapturedAfterFirstHeader(pre: seq<string>, header: string, post: seq<string>)
    requires forall j :: 0 <= j < |pre| ==> !IsAutoexecHeader(pre[j])
    requires IsAutoexecHeader(header)
    ensures Captured(pre + [header] + post) == RStripAll(post)
  {
    var lines := pre + [header] + post;
    assert lines[|pre|] == header;
    assert FirstHeader(lines) == |pre|;
    assert lines[|pre| + 1..] == post;
  }

  /** A file without an `[autoexec]` header contributes no lines. */
  lemma CapturedWithoutHeader(lines: seq<string>)
    requires forall j :: 0 <= j < |lines| ==> !IsAutoexecHeader(lines[j])
    ensures Captured(lines) == []
  {
    assert !HasHeader(lines);
  }

  /**
   * The scan carries its state across a split of the file: once a header has
   * been seen, every further line is captured.
   */
  lemma {:induction false} CapturedAppend(a: seq<string>, b: seq<string>)
    ensures Captured(a + b) == if HasHeader(a) then Captured(a) + RStripAll(b) else Captured(b)
  {
    if HasHeader(a) {
      CapturedAppendAfterHeader(a, b);
    } else {
      CapturedAppendBeforeHeader(a, b);
    }
  }

  lemma CapturedAppendAfterHeader(a: seq<string>, b: seq<string>)
    requires HasHeader(a)
    ensures Captured(a + b) == Captured(a) + RStripAll(b)
  {
    var h := FirstHeader(a);
    FirstHeaderIs(a + b, h);
    assert (a + b)[h + 1..] == a[h + 1..] + b;
    RStripAllAppend(a[h + 1..], b);
  }

  lemma CapturedAppendBeforeHeader(a: seq<string>, b: seq<string>)
    requires !HasHeader(a)
    ensures Captured(a + b) == Captured(b)
  {
    var hb := FirstHeader(b);
    forall j | 0 <= j < |a| + hb ensures !IsAutoexecHeader((a + b)[j]) {
      if j >= |a| {
        assert (a + b)[j] == b[j - |a|];
      }
    }
    FirstHeaderIs(a + b, |a| + hb);
    if hb < |b| {
      assert (a + b)[|a| + hb + 1..] == b[hb + 1..];
    }
  }

  /** The index characterized by `FirstHeader`'s contract is `FirstHeader`. */
  lemma FirstHeaderIs(lines: seq<string>, h: nat)
    requires h <= |lines|
    requires forall j :: 0 <= j < h ==> !IsAutoexecHeader(lines[j])
    requires h < |lines| ==> IsAutoexecHeader(lines[h])
    ensures FirstHeader(lines) == h
  {
  }

  lemma CapturedShape(lines: seq<string>)
    ensures |Captured(lines)| < |lines| || lines == []
    ensures forall i :: 0 <= i < |Captured(lines)| ==> Captured(lines)[i] == [] || !IsSpace(Captured(lines)[i][|Captured(lines)[i]| - 1])
  {
    var c, h := Captured(lines), FirstHeader(lines);
    if h < |lines| {
      assert c == RStripAll(lines[h + 1..]);
      forall i | 0 <= i < |c| ensures c[i] == [] || !IsSpace(c[i][|c[i]| - 1]) {
        RStripShape(lines[h + 1..][i]);
      }
    }
  }
}
