/** A directory on disk, as the scripts see it: file names mapped to their contents. */
module Files {
  import opened Text

  type Bytes = seq<bv8>
  type Dir = map<string, Bytes>

  /** `names.filter(f => f.endsWith('.png'))`: case-sensitive, order kept. */
  function PngNames(names: seq<string>): (r: seq<string>)
    ensures forall k :: 0 <= k < |r| ==> EndsWith(r[k], ".png")
  {
    if names == [] then []
    else
      var n := names[|names| - 1];
      PngNames(names[..|names| - 1]) + (if EndsWith(n, ".png") then [n] else [])
  }

  /** The filter keeps exactly the names ending in ".png". */
  lemma {:induction false} PngNamesMembers(names: seq<string>)
    ensures forall n :: n in PngNames(names) <==> n in names && EndsWith(n, ".png")
  {
    if names != [] {
      var init := names[..|names| - 1];
      PngNamesMembers(init);
      assert names == init + [names[|names| - 1]];
    }
  }

  /** Filtering distributes over concatenation, so the original order is kept. */
  lemma {:induction false} PngNamesAppend(a: seq<string>, b: seq<string>)
    ensures PngNames(a + b) == PngNames(a) + PngNames(b)
  {
    if b == [] {
      assert a + b == a;
    } else {
      assert (a + b)[..|a + b| - 1] == a + b[..|b| - 1];
      PngNamesAppend(a, b[..|b| - 1]);
    }
  }
}
