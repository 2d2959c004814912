/** `LinkManager` (`linkmanager.py`): the set of ids of the links the editor
    shows between node ports. Its parameters are typed `int` here, so the
    `isinstance` assertions of `add_link` and `remove_link` always hold. */
module LinkManagement {
  import opened Wrappers

  class LinkManager {
    var links: set<int>

    /** A new manager holds no links. */
    constructor()
      ensures links == {}
    {
      links := {};
    }

    /** `add_link`: adding a link that is already there changes nothing. */
    method AddLink(lnk: int)
      modifies this
      ensures links == old(links) + {lnk}
      ensures lnk in old(links) ==> links == old(links)
    {
      links := links + {lnk};
    }

    /** `remove_link`: `set.remove` raises `KeyError` for an absent link. */
    method RemoveLink(lnk: int) returns (r: Result<()>)
      modifies this
      ensures lnk in old(links) ==> r == Ok(()) && links == old(links) - {lnk}
      ensures lnk !in old(links) ==> r == Err(KeyError) && links == old(links)
    {
      if lnk !in links {
        return Err(KeyError);
      }
      links := links - {lnk};
      r := Ok(());
    }

    /** `get_links`: every link exactly once, in the set's iteration order,
        which is left open. */
    method GetLinks() returns (r: seq<int>)
      ensures NoDup(r) && forall x :: x in r <==> x in links
    {
      var rest := links;
      r := [];
      while rest != {}
        invariant rest <= links
        invariant NoDup(r) && forall x :: x in r <==> x in links && x !in rest
        decreases rest
      {
        var x := PickKey(rest);
        r := r + [x];
        rest := rest - {x};
      }
    }
  }
}
