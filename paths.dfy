/**
 * The two `pathlib.Path` operations the dispatcher relies on: `suffix`,
 * which picks the conversion, and `with_suffix`, which names the default
 * destinations. A path is a directory and a file name in it.
 */
module Paths {
  import opened Common

  datatype Path = Path(dir: string, name: string)

  /** `name.rfind('.')`: the position of the last dot, if any. */
  function LastDot(name: string): (r: Option<nat>)
    ensures r.Some? ==> r.value < |name| && name[r.value] == '.'
    ensures r.Some? ==> forall j :: r.value < j < |name| ==> name[j] != '.'
    ensures r.None? ==> forall j :: 0 <= j < |name| ==> name[j] != '.'
    decreases |name|
  {
    if name == [] then None
    else if name[|name| - 1] == '.' then Some(|name| - 1)
    else LastDot(name[..|name| - 1])
  }

  /**
   * `Path.suffix`: the name from its last dot on, when that dot is neither
   * the first nor the last character; otherwise empty.
   */
  function Suffix(name: string): string
  {
    match LastDot(name)
    case None => []
    case Some(i) => if 0 < i < |name| - 1 then name[i..] else []
  }

  /**
   * A suffix is empty or a proper tail of the name: a dot and at least one
   * more character, with no other dot.
   */
  lemma SuffixShape(name: string)
    ensures var s := Suffix(name);
      s == [] || (2 <= |s| < |name| && s == name[|name| - |s|..] && s[0] == '.')
    ensures var s := Suffix(name);
      s != [] ==> forall j :: 1 <= j < |s| ==> s[j] != '.'
  {
  }

  /** The name without its suffix. */
  function Stem(name: string): (stem: string)
    ensures name == stem + Suffix(name)
  {
    SuffixShape(name);
    name[..|name| - |Suffix(name)|]
  }

  /**
   * `Path.with_suffix(suffix)`: the suffix of the name replaced, or appended
   * when there is none; `None` where Python raises ValueError because the
   * name is empty.
   */
  function WithSuffix(p: Path, suffix: string): (r: Option<Path>)
    ensures r.None? <==> p.name == []
    ensures r.Some? ==> r.value.dir == p.dir
  {
    if p.name == [] then None else Some(Path(p.dir, Stem(p.name) + suffix))
  }

  /** A suffix of a dot and at least one other character, none of them a dot. */
  predicate ProperSuffix(suffix: string)
  {
    2 <= |suffix| && suffix[0] == '.' && forall j :: 1 <= j < |suffix| ==> suffix[j] != '.'
  }

  /** A stem is never empty when the name is not: a leading dot does not start a suffix. */
  lemma StemNonEmpty(name: string)
    requires name != []
    ensures Stem(name) != []
  {
  }

  /**
   * Renaming to a proper suffix gives a path whose suffix is that suffix and
   * whose stem is the original stem: only the final extension is replaced.
   */
  lemma SuffixOfWithSuffix(p: Path, suffix: string)
    requires p.name != [] && ProperSuffix(suffix)
    ensures Suffix(WithSuffix(p, suffix).value.name) == suffix
    ensures Stem(WithSuffix(p, suffix).value.name) == Stem(p.name)
  {
    var stem := Stem(p.name);
    StemNonEmpty(p.name);
    var n := stem + suffix;
    assert n[|stem|] == '.';
    assert forall j :: |stem| < j < |n| ==> n[j] == suffix[j - |stem|];
    LastDotAt(n, |stem|);
    assert n[|stem|..] == suffix;
    assert n == Stem(n) + Suffix(n);
  }

  /** A dot with no dot after it is the last dot. */
  lemma {:induction false} LastDotAt(name: string, i: nat)
    requires i < |name| && name[i] == '.'
    requires forall j :: i < j < |name| ==> name[j] != '.'
    ensures LastDot(name) == Some(i)
    decreases |name|
  {
    if i < |name| - 1 {
      LastDotAt(name[..|name| - 1], i);
    }
  }

  /** A renamed path differs from the original when the suffix changes. */
  lemma WithSuffixMoves(p: Path, suffix: string)
    requires p.name != [] && ProperSuffix(suffix) && Suffix(p.name) != suffix
    ensures WithSuffix(p, suffix).value != p
  {
    SuffixOfWithSuffix(p, suffix);
  }
}
