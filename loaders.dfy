/**
 * Class loaders as the shutdown check sees them: each loader knows only its
 * parent, and the parent chain of any loader is finite, so it is an inductive
 * datatype. A thread record is what terminate reads of a live thread.
 */
module Loaders {

  /**
   * A class loader and, through `parent`, all its ancestors; Null is Java's null.
   * `id` stands for the identity of the loader object: two distinct loaders never
   * share an id, so comparing chains here is the identity test equals() makes.
   */
  datatype LoaderChain = Null | Loader(id: nat, parent: LoaderChain)

  /** A thread of the snapshot taken at shutdown. */
  datatype ThreadRecord = ThreadRecord(name: string, daemon: bool, context: LoaderChain)

  /** The strict ancestors of a loader, nearest first: getParent(), getParent().getParent(), ... */
  function Ancestors(c: LoaderChain): (s: seq<LoaderChain>)
    ensures Null !in s
  {
    if c.Null? || c.parent.Null? then [] else [c.parent] + Ancestors(c.parent)
  }

  /**
   * What Bootstrap.isChildCreatedThread decides for a thread whose context
   * loader is `context`: the bootstrap's loader is non-null and a strict
   * ancestor of the context loader.
   */
  predicate IsChildCreated(loader: LoaderChain, context: LoaderChain) {
    loader != Null && loader in Ancestors(context)
  }

  /** The loader reached by calling getParent() k times (staying at null). */
  function NthParent(c: LoaderChain, k: nat): LoaderChain {
    if k == 0 || c.Null? then c else NthParent(c.parent, k - 1)
  }

  /**
   * Reference characterisation: a thread is child-created exactly when some
   * positive number of getParent() steps from its context loader reaches the
   * bootstrap's loader.
   */
  lemma {:induction false} ChildCreatedIffReachedByParentSteps(loader: LoaderChain, context: LoaderChain)
    requires loader != Null
    ensures IsChildCreated(loader, context) <==> exists k :: k >= 1 && NthParent(context, k) == loader
  {
    if context.Null? {
      assert forall k :: k >= 1 ==> NthParent(context, k) == Null;
    } else if context.parent.Null? {
      forall k | k >= 1 ensures NthParent(context, k) == Null {
        assert NthParent(context, k) == NthParent(Null, k - 1);
      }
    } else {
      ChildCreatedIffReachedByParentSteps(loader, context.parent);
      if IsChildCreated(loader, context) {
        if context.parent == loader {
          assert NthParent(context, 1) == loader;
        } else {
          var k :| k >= 1 && NthParent(context.parent, k) == loader;
          assert NthParent(context, k + 1) == loader;
        }
        assert exists k :: k >= 1 && NthParent(context, k) == loader;
      } else {
        forall k | k >= 1 ensures NthParent(context, k) != loader {
          if k == 1 {
            assert NthParent(context, 1) == context.parent;
          } else {
            assert NthParent(context, k) == NthParent(context.parent, k - 1);
          }
        }
        assert !exists j :: j >= 1 && NthParent(context, j) == loader;
      }
    }
  }

  /** Number of loaders in a chain. */
  function Depth(c: LoaderChain): nat {
    if c.Null? then 0 else 1 + Depth(c.parent)
  }

  lemma {:induction false} AncestorsAreShallower(c: LoaderChain, a: LoaderChain)
    requires a in Ancestors(c)
    ensures Depth(a) < Depth(c)
  {
    if a != c.parent {
      AncestorsAreShallower(c.parent, a);
    }
  }

  /**
   * The context loader itself is never compared: a thread whose context loader
   * is the bootstrap's loader is not child-created.
   */
  lemma ContextLoaderItselfNotMatched(loader: LoaderChain)
    ensures !IsChildCreated(loader, loader)
  {
    if IsChildCreated(loader, loader) {
      AncestorsAreShallower(loader, loader);
    }
  }

  /** A loader created under a child-created context is itself child-created. */
  lemma ChildOfMatchedLoaderMatches(loader: LoaderChain, context: LoaderChain, id: nat)
    requires IsChildCreated(loader, context)
    ensures IsChildCreated(loader, Loader(id, context))
  {
  }

  /** A loader whose parent is the bootstrap's loader is child-created. */
  lemma DirectChildMatches(loader: LoaderChain, id: nat)
    requires loader != Null
    ensures IsChildCreated(loader, Loader(id, loader))
  {
  }
}
