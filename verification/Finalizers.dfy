/** The operator's edits to a finalizer list. */
module Finalizers {
  import opened Resources

  /** The list the delete path writes back: every entry but the operator's, in order. */
  function Without(fs: seq<string>, f: string): (r: seq<string>)
    ensures f !in r
    ensures f !in fs ==> r == fs
    ensures forall g :: g != f ==> (g in r <==> g in fs)
  {
    if fs == [] then []
    else if fs[0] == f then Without(fs[1..], f)
    else [fs[0]] + Without(fs[1..], f)
  }

  /** What others put into a finalizer list. */
  function Foreign(fs: seq<string>): seq<string> {
    Without(fs, FINALIZER)
  }

  /** How often an entry occurs. */
  function Copies(fs: seq<string>, f: string): (n: nat)
    ensures n == 0 <==> f !in fs
  {
    if fs == [] then 0 else (if fs[0] == f then 1 else 0) + Copies(fs[1..], f)
  }

  lemma {:induction false} WithoutAppend(fs: seq<string>, gs: seq<string>, f: string)
    ensures Without(fs + gs, f) == Without(fs, f) + Without(gs, f)
  {
    if fs == [] {
      assert fs + gs == gs;
    } else {
      assert (fs + gs)[1..] == fs[1..] + gs;
      WithoutAppend(fs[1..], gs, f);
    }
  }

  lemma {:induction false} CopiesAppend(fs: seq<string>, gs: seq<string>, f: string)
    ensures Copies(fs + gs, f) == Copies(fs, f) + Copies(gs, f)
  {
    if fs == [] {
      assert fs + gs == gs;
    } else {
      assert (fs + gs)[1..] == fs[1..] + gs;
      CopiesAppend(fs[1..], gs, f);
    }
  }

  /** Multiplicities of foreign entries survive the removal. */
  lemma {:induction false} WithoutKeepsCopies(fs: seq<string>, f: string, g: string)
    requires g != f
    ensures Copies(Without(fs, f), g) == Copies(fs, g)
  {
    if fs != [] {
      WithoutKeepsCopies(fs[1..], f, g);
      if fs[0] != f {
        assert Without(fs, f)[1..] == Without(fs[1..], f);
      }
    }
  }

  /** Adding the finalizer keeps what others wrote, adds exactly one copy, and removal undoes it. */
  lemma AddThenRemove(fs: seq<string>)
    requires FINALIZER !in fs
    ensures Foreign(fs + [FINALIZER]) == Foreign(fs) == fs
    ensures Copies(fs + [FINALIZER], FINALIZER) == 1
  {
    WithoutAppend(fs, [FINALIZER], FINALIZER);
    CopiesAppend(fs, [FINALIZER], FINALIZER);
  }
}
