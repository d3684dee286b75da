/**
 * Inventory lookups through container views: list every object of one
 * managed-entity type under a container, then take the first, or the first
 * with a given name.
 */
module Vsphere {
  import opened Wrappers
  import opened Gateway
  import Query

  /**
   * A container view the host created for one lookup. Its contents are fixed
   * when it is made; `Destroy` releases it on the host.
   */
  class ContainerView {
    const container: ManagedObject
    const types: seq<VimType>
    const recursive: bool
    const view: seq<ManagedObject>
    var alive: bool

    /** `viewManager.CreateContainerView(container, [vimType], recursive)`. */
    constructor(content: Inventory, container: ManagedObject, vimType: VimType, recursive: bool)
      ensures this.container == container && types == [vimType] && this.recursive == recursive
      ensures view == content.view(container, vimType, recursive)
      ensures alive
    {
      this.container := container;
      types := [vimType];
      this.recursive := recursive;
      view := content.view(container, vimType, recursive);
      alive := true;
    }

    /** `ContainerView.Destroy`. */
    method Destroy()
      modifies this
      ensures !alive
    {
      alive := false;
    }
  }

  /** The container a lookup searches: the given one, or the root folder when none is given. */
  function SearchRoot(content: Inventory, container: Option<ManagedObject>): (root: ManagedObject)
    ensures container.None? ==> root == content.rootFolder
    ensures container.Some? ==> root == container.value
  {
    match container
    case None => content.rootFolder
    case Some(c) => c
  }

  /** The objects of type `vimType` a view over the search root lists, in view order. */
  function Listed(content: Inventory, vimType: VimType, container: Option<ManagedObject>, recurse: bool): seq<ManagedObject>
  {
    content.view(SearchRoot(content, container), vimType, recurse)
  }

  /**
   * `list_vim_obj`: the objects a fresh container view over the search root
   * lists, in view order; the view has been destroyed when it returns.
   */
  method ListVimObj(content: Inventory, vimType: VimType, container: Option<ManagedObject>, recurse: bool)
    returns (objs: seq<ManagedObject>, ghost containerView: ContainerView)
    ensures objs == content.view(if container.None? then content.rootFolder else container.value, vimType, recurse)
    ensures fresh(containerView) && !containerView.alive
    ensures containerView.view == objs && containerView.types == [vimType]
  {
    var root := SearchRoot(content, container);
    var v := new ContainerView(content, root, vimType, recurse);
    objs := v.view;
    v.Destroy();
    containerView := v;
  }

  /** `get_first_vim_obj`: the first listed object, `None` when nothing is listed. */
  method GetFirstVimObj(content: Inventory, vimType: VimType, container: Option<ManagedObject>, recurse: bool)
    returns (r: Option<ManagedObject>)
    ensures r.None? <==> Listed(content, vimType, container, recurse) == []
    ensures r.Some? ==> r.value == Listed(content, vimType, container, recurse)[0]
  {
    var objs, _ := ListVimObj(content, vimType, container, recurse);
    if |objs| > 0 {
      return Some(objs[0]);
    }
    return None;
  }

  /** The test `get_vim_obj_by_name` applies to each listed object. */
  function NameIs(name: string): ManagedObject -> bool
  {
    (o: ManagedObject) => o.name == name
  }

  /**
   * `get_vim_obj_by_name`: the first listed object whose name is `name`,
   * `None` when no listed object has that name.
   */
  method GetVimObjByName(content: Inventory, vimType: VimType, name: string, container: Option<ManagedObject>, recurse: bool)
    returns (r: Option<ManagedObject>)
    ensures r == Query.Get(Listed(content, vimType, container, recurse), NameIs(name))
    ensures r.Some? ==> r.value.name == name && r.value in Listed(content, vimType, container, recurse)
    ensures r.None? <==> forall i :: 0 <= i < |Listed(content, vimType, container, recurse)| ==>
                                      Listed(content, vimType, container, recurse)[i].name != name
  {
    var objs, _ := ListVimObj(content, vimType, container, recurse);
    Query.GetFindsMatch(objs, NameIs(name));
    for i := 0 to |objs|
      invariant forall j :: 0 <= j < i ==> objs[j].name != name
    {
      if objs[i].name == name {
        Query.GetIsFirstMatch(objs, NameIs(name), i);
        return Some(objs[i]);
      }
    }
    r := None;
  }
}
