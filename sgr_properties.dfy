/** Properties of handle_sgr and of the `m` command (noansi.c:89-137, 224-234). */
module SgrProperties {
  import opened Cells
  import opened Interpreter

  /** The codes of one `m` command act one after the other. */
  lemma {:induction false} ApplySgrsAppend(r: Rendition, a: seq<int>, b: seq<int>)
    ensures ApplySgrs(r, a + b) == ApplySgrs(ApplySgrs(r, a), b)
    decreases |b|
  {
    if b == [] {
      assert a + b == a;
    } else {
      var n := |b| - 1;
      assert (a + b)[..|a + b| - 1] == a + b[..n];
      ApplySgrsAppend(r, a, b[..n]);
    }
  }

  /** A 0 among the codes forgets everything before it: the result is that of
      the codes after it, applied to the initial rendition. */
  lemma ResetForgets(r: Rendition, codes: seq<int>, k: nat)
    requires k < |codes| && codes[k] == 0
    ensures ApplySgrs(r, codes) == ApplySgrs(InitialRendition, codes[k + 1..])
  {
    assert codes == codes[..k + 1] + codes[k + 1..];
    ApplySgrsAppend(r, codes[..k + 1], codes[k + 1..]);
    assert codes[..k + 1][..k] == codes[..k];
  }

  /** Codes handle_sgr does not know leave the rendition as it is. */
  lemma {:induction false} IgnoredCodes(r: Rendition, codes: seq<int>)
    requires forall k :: 0 <= k < |codes| ==> !IsSgrCode(codes[k])
    ensures ApplySgrs(r, codes) == r
    decreases |codes|
  {
    if codes != [] {
      IgnoredCodes(r, codes[..|codes| - 1]);
    }
  }

  /** Whatever the codes, the rendition keeps base colours and at most one
      flag; in particular Unchanged never enters curflags. */
  lemma {:induction false} ApplySgrsPlain(r: Rendition, codes: seq<int>)
    requires Plain(r)
    ensures Plain(ApplySgrs(r, codes))
    decreases |codes|
  {
    if codes != [] {
      ApplySgrsPlain(r, codes[..|codes| - 1]);
    }
  }

  /** A flag code replaces the flag set: of two style codes in a row only
      the second counts (Bold then Underline leaves only Underline), and any
      code given twice acts as once. */
  lemma FlagCodesReplace(r: Rendition, c: int, d: int)
    ensures ApplySgrs(r, [1, 4]).flags == {Underline}
    ensures ApplySgrs(r, [7, 7]) == ApplySgrs(r, [7])
    ensures c in {1, 4, 5, 7} && d in {1, 4, 5, 7} ==> ApplySgrs(r, [c, d]) == ApplySgrs(r, [d])
    ensures ApplySgrs(r, [c, c]) == ApplySgrs(r, [c])
  {
    assert [1, 4][..1] == [1];
    assert [7, 7][..1] == [7];
    assert [1][..0] == [] && [7][..0] == [];
  }

  /** Codes 30-37 and 40-47 set the colour their last digit names, on their
      own side only. */
  lemma ColourCodes(r: Rendition, n: int)
    requires 0 <= n < 8
    ensures ApplySgrs(r, [30 + n]).fg == n && ApplySgrs(r, [40 + n]).bg == n
    ensures ApplySgrs(r, [30 + n]).bg == r.bg && ApplySgrs(r, [40 + n]).fg == r.fg
    ensures ApplySgrs(r, [30 + n]) == r.(fg := n) && ApplySgrs(r, [40 + n]) == r.(bg := n)
  {
    assert [30 + n][..0] == [] && [40 + n][..0] == [];
  }
}
