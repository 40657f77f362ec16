/**
 * The iOS WebUI controller factory registry: an append-only list of
 * controller factories and two searches over it in registration order.
 *
 * The process-wide singleton that holds the list in the original is
 * modelled as an explicit `FactoryRegistry` object.
 */
module WebUIRegistry {
  import opened Wrappers

  type Url = string

  /** The `WebUIIOS` host handed to a factory when it builds a controller. */
  type WebUIHost = nat

  /** A created controller (owned by the caller in the original), by identity. */
  type Controller = nat

  /**
   * A controller factory as the registry uses it: whether it serves a URL,
   * and the controller it builds for a host and URL (`None` for null).
   * The two are independent: a factory may answer one way and build the other.
   */
  datatype Factory = Factory(handles: Url -> bool, create: (WebUIHost, Url) -> Option<Controller>)

  /** True iff some factory in `factories` reports a controller for `url`. */
  function AnyHandles(factories: seq<Factory>, url: Url): (r: bool)
    ensures r <==> exists i :: 0 <= i < |factories| && factories[i].handles(url)
  {
    if factories == [] then false
    else factories[0].handles(url) || AnyHandles(factories[1..], url)
  }

  /**
   * The controller built by the first factory, in registration order, that
   * builds a non-null one; `None` when every factory returns null.
   */
  function FirstController(factories: seq<Factory>, host: WebUIHost, url: Url): (r: Option<Controller>)
    ensures r.None? <==> forall i :: 0 <= i < |factories| ==> factories[i].create(host, url).None?
    ensures r.Some? ==> exists k :: 0 <= k < |factories| && factories[k].create(host, url) == r &&
                         forall j :: 0 <= j < k ==> factories[j].create(host, url).None?
  {
    if factories == [] then None
    else if factories[0].create(host, url).Some? then factories[0].create(host, url)
    else
      var r := FirstController(factories[1..], host, url);
      assert r.Some? ==> exists k :: 1 <= k < |factories| && factories[k].create(host, url) == r &&
                          forall j :: 0 <= j < k ==> factories[j].create(host, url).None? by {
        if r.Some? {
          var k :| 0 <= k < |factories| - 1 && factories[1..][k].create(host, url) == r &&
                   forall j :: 0 <= j < k ==> factories[1..][j].create(host, url).None?;
          assert factories[k + 1].create(host, url) == r;
          assert forall j :: 0 <= j < k + 1 ==> factories[j].create(host, url).None? by {
            forall j | 0 <= j < k + 1 ensures factories[j].create(host, url).None? {
              if j > 0 { assert factories[j] == factories[1..][j - 1]; }
            }
          }
        }
      }
      r
  }

  /** Registering a factory after others leaves a "does any factory serve it" answer true when it was true, and adds the new factory's answer. */
  lemma {:induction false} AnyHandlesAppend(factories: seq<Factory>, f: Factory, url: Url)
    ensures AnyHandles(factories + [f], url) == (AnyHandles(factories, url) || f.handles(url))
  {
    var all := factories + [f];
    if AnyHandles(factories, url) {
      var i :| 0 <= i < |factories| && factories[i].handles(url);
      assert all[i] == factories[i];
    }
    if f.handles(url) {
      assert all[|factories|] == f;
    }
    if AnyHandles(all, url) {
      var i :| 0 <= i < |all| && all[i].handles(url);
      if i < |factories| { assert all[i] == factories[i]; }
    }
  }

  /**
   * First-match semantics across registration: the factories registered
   * after `earlier` are consulted only when none of `earlier` builds a
   * controller.
   */
  lemma {:induction false} FirstControllerAppend(earlier: seq<Factory>, later: seq<Factory>, host: WebUIHost, url: Url)
    ensures FirstController(earlier + later, host, url) ==
            if FirstController(earlier, host, url).Some? then FirstController(earlier, host, url)
            else FirstController(later, host, url)
  {
    if earlier == [] {
      assert earlier + later == later;
    } else {
      assert (earlier + later)[0] == earlier[0];
      assert (earlier + later)[1..] == earlier[1..] + later;
      FirstControllerAppend(earlier[1..], later, host, url);
    }
  }

  /** The registry object that owns the list of registered factories. */
  class FactoryRegistry {
    var factories: seq<Factory>

    /** A registry with no factories: nothing is served and nothing is built. */
    constructor ()
      ensures factories == []
      ensures forall url :: !AnyHandles(factories, url)
      ensures forall host, url :: FirstController(factories, host, url).None?
    {
      factories := [];
    }

    /** Appends `factory`; the factories registered before it keep their positions. */
    method RegisterFactory(factory: Factory)
      modifies this
      ensures factories == old(factories) + [factory]
      ensures |factories| == |old(factories)| + 1 && factories[|old(factories)|] == factory
      ensures forall i :: 0 <= i < |old(factories)| ==> factories[i] == old(factories)[i]
    {
      factories := factories + [factory];
    }

    /** Whether any registered factory serves `url`; asks them in order and stops at the first yes. */
    method HasWebUIIOSControllerForURL(url: Url) returns (r: bool)
      ensures r <==> exists i :: 0 <= i < |factories| && factories[i].handles(url)
      ensures r == AnyHandles(factories, url)
    {
      for i := 0 to |factories|
        invariant forall j :: 0 <= j < i ==> !factories[j].handles(url)
      {
        if factories[i].handles(url) {
          return true;
        }
      }
      return false;
    }

    /**
     * The controller of the first factory, in registration order, that
     * builds a non-null one, or `None`. `consulted` is how many factories
     * were asked: the search stops at the first non-null controller, so no
     * later factory is consulted.
     */
    method CreateWebUIIOSControllerForURL(host: WebUIHost, url: Url) returns (controller: Option<Controller>, consulted: nat)
      ensures controller == FirstController(factories, host, url)
      ensures consulted <= |factories|
      ensures forall j :: 0 <= j < consulted - 1 ==> factories[j].create(host, url).None?
      ensures controller.None? ==> consulted == |factories|
      ensures controller.Some? ==> consulted > 0 && factories[consulted - 1].create(host, url) == controller
    {
      for i := 0 to |factories|
        invariant forall j :: 0 <= j < i ==> factories[j].create(host, url).None?
        invariant FirstController(factories, host, url) == FirstController(factories[i..], host, url)
      {
        assert factories[i..][1..] == factories[i + 1..];
        var candidate := factories[i].create(host, url);
        if candidate.Some? {
          return candidate, i + 1;
        }
      }
      return None, |factories|;
    }
  }
}
