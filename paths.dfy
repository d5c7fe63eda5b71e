/** `PurePath.suffix` and `PurePath.stem` of a file name. */
module Paths {
  import opened Text

  /** `name.rfind('.')`: the last position of a point, or -1. */
  function LastDot(name: string): (i: int)
    ensures -1 <= i < |name|
    ensures i >= 0 ==> name[i] == '.'
    ensures forall j :: i < j < |name| ==> name[j] != '.'
  {
    if |name| == 0 then -1
    else if name[|name| - 1] == '.' then |name| - 1
    else LastDot(name[..|name| - 1])
  }

  /** A suffix exists when the last point is neither the first nor the last character. */
  predicate HasSuffix(name: string) {
    var i := LastDot(name);
    0 < i < |name| - 1
  }

  /** `Path(name).suffix` */
  function Suffix(name: string): string {
    if HasSuffix(name) then name[LastDot(name)..] else ""
  }

  /** `Path(name).stem` */
  function Stem(name: string): string {
    if HasSuffix(name) then name[..LastDot(name)] else name
  }

  /** The stem and the suffix are a split of the name, and the suffix is empty or one point-led, point-free tail. */
  lemma StemSuffixSplit(name: string)
    ensures Stem(name) + Suffix(name) == name
    ensures Suffix(name) == "" || (Suffix(name)[0] == '.' && |Suffix(name)| >= 2 && '.' !in Suffix(name)[1..] && |Stem(name)| >= 1)
  {
  }

  /** A name of the form `<stem>.<ext>` with a non-empty stem and a point-free extension has exactly that stem. */
  lemma {:induction false} StemOfDottedName(stem: string, ext: string)
    requires |stem| >= 1 && |ext| >= 1 && '.' !in ext
    ensures Suffix(stem + "." + ext) == "." + ext
    ensures Stem(stem + "." + ext) == stem
  {
    var name := stem + "." + ext;
    LastDotBeforeTail(name, |stem|);
  }

  lemma {:induction false} LastDotBeforeTail(name: string, k: nat)
    requires k < |name| && name[k] == '.'
    requires forall j :: k < j < |name| ==> name[j] != '.'
    ensures LastDot(name) == k
    decreases |name|
  {
    if name[|name| - 1] != '.' {
      LastDotBeforeTail(name[..|name| - 1], k);
    }
  }
}
