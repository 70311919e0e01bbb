// static/js/services/navigation-helper.js: the current component and a bounded history of
// components. Components are values; the only thing about one that matters here is whether it
// has an unmount method, and the methods return the component they unmount.
module NavigationHelper {
  import opened Wrappers

  datatype Component = Component(name: string, hasUnmount: bool)

  /** The history keeps at most this many components. */
  const MaxStack: nat := 10

  /** The stack after a push: the component on top, the oldest dropped past the bound. */
  function Pushed(stack: seq<Component>, c: Component): (r: seq<Component>)
    ensures r != [] && r[|r| - 1] == c
    ensures |stack| < MaxStack ==> r == stack + [c]
    ensures |stack| == MaxStack ==> r == stack[1..] + [c]
    ensures |stack| <= MaxStack ==> |r| <= MaxStack
  {
    var pushed := stack + [c];
    if |pushed| > MaxStack then pushed[1..] else pushed
  }

  /** The component unmounted when current is replaced or cleaned up. */
  function Unmounted(current: Option<Component>): (u: Option<Component>)
    ensures u.Some? <==> current.Some? && current.value.hasUnmount
    ensures u.Some? ==> u == current
  {
    if current.Some? && current.value.hasUnmount then current else None
  }

  class Navigator {
    var currentComponent: Option<Component>
    var componentStack: seq<Component>

    predicate Valid()
      reads this
    {
      |componentStack| <= MaxStack
    }

    constructor ()
      ensures Valid()
      ensures currentComponent == None && componentStack == []
    {
      currentComponent := None;
      componentStack := [];
    }

    /** setCurrentComponent(c): unmount the old component, make c current and push it. */
    method SetCurrentComponent(c: Component) returns (unmounted: Option<Component>)
      requires Valid()
      modifies this
      ensures Valid()
      ensures unmounted == Unmounted(old(currentComponent))
      ensures currentComponent == Some(c)
      ensures componentStack == Pushed(old(componentStack), c)
    {
      unmounted := Unmounted(currentComponent);
      currentComponent := Some(c);
      componentStack := componentStack + [c];
      if |componentStack| > MaxStack {
        componentStack := componentStack[1..];
      }
    }

    /**
     * handleBack: pop the top, and if a component is left below it make that one current.
     * Handled exactly when at least two were stacked.
     */
    method HandleBack() returns (handled: bool)
      requires Valid()
      modifies this
      ensures Valid()
      ensures handled <==> |old(componentStack)| >= 2
      ensures componentStack == if old(componentStack) == [] then [] else old(componentStack)[..|old(componentStack)| - 1]
      ensures handled ==> currentComponent == Some(componentStack[|componentStack| - 1])
      ensures !handled ==> currentComponent == old(currentComponent) && componentStack == []
    {
      if |componentStack| > 0 {
        componentStack := componentStack[..|componentStack| - 1];
      }
      if |componentStack| > 0 {
        currentComponent := Some(componentStack[|componentStack| - 1]);
        return true;
      }
      return false;
    }

    /** cleanUp: unmount the current component, empty the history, no current component. */
    method CleanUp() returns (unmounted: Option<Component>)
      modifies this
      ensures Valid()
      ensures unmounted == Unmounted(old(currentComponent))
      ensures componentStack == [] && currentComponent == None
    {
      unmounted := Unmounted(currentComponent);
      componentStack := [];
      currentComponent := None;
    }
  }

  /** Going back after pushing onto a history of at least one returns to its former top. */
  lemma BackAfterPush(stack: seq<Component>, c: Component)
    requires 0 < |stack| < MaxStack
    ensures var pushed := Pushed(stack, c);
            |pushed| >= 2 && pushed[..|pushed| - 1] == stack && pushed[|pushed| - 2] == stack[|stack| - 1]
  {
    assert (stack + [c])[..|stack|] == stack;
  }
}
