/** ChatClientManager: the directory of online clients, kept as four parallel
    lists (ids, nicknames, endpoint strings, console colour codes). The server
    and every client each own one. */
module ClientManager {

  /** Console colour given to every new entry (ConsoleColor.Gray). */
  const DefaultColor: nat := 7

  /** One row across the four lists. */
  datatype Entry = Entry(id: nat, endpoint: string, nickname: string, color: nat)

  /** The rows made by reading the four lists side by side. */
  function Zip(ids: seq<nat>, endpoints: seq<string>, nicknames: seq<string>, colors: seq<nat>): (r: seq<Entry>)
    requires |ids| == |endpoints| == |nicknames| == |colors|
    ensures |r| == |ids|
    ensures forall i :: 0 <= i < |r| ==> r[i] == Entry(ids[i], endpoints[i], nicknames[i], colors[i])
  {
    seq(|ids|, i requires 0 <= i < |ids| => Entry(ids[i], endpoints[i], nicknames[i], colors[i]))
  }

  /** List.RemoveAt(index): drops one position and keeps the others in order. */
  function RemoveAt<T>(s: seq<T>, index: nat): (r: seq<T>)
    requires index < |s|
    ensures |r| == |s| - 1
    ensures forall k :: 0 <= k < index ==> r[k] == s[k]
    ensures forall k :: index <= k < |r| ==> r[k] == s[k + 1]
  {
    s[..index] + s[index + 1..]
  }

  /** Removing a position from each list removes that row from the table. */
  lemma {:induction false} ZipRemoveAt(ids: seq<nat>, endpoints: seq<string>, nicknames: seq<string>, colors: seq<nat>, index: nat)
    requires |ids| == |endpoints| == |nicknames| == |colors|
    requires index < |ids|
    ensures Zip(RemoveAt(ids, index), RemoveAt(endpoints, index), RemoveAt(nicknames, index), RemoveAt(colors, index))
         == RemoveAt(Zip(ids, endpoints, nicknames, colors), index)
  {
  }

  /** Changing a position and then removing it is removing it. */
  lemma {:induction false} RemoveAtUpdate<T>(s: seq<T>, index: nat, x: T)
    requires index < |s|
    ensures RemoveAt(s[index := x], index) == RemoveAt(s, index)
  {
    assert s[index := x][..index] == s[..index];
    assert s[index := x][index + 1..] == s[index + 1..];
  }

  /** Removing a position keeps distinct elements distinct. */
  lemma {:induction false} RemoveAtDistinct<T>(s: seq<T>, index: nat)
    requires index < |s|
    requires forall i, j :: 0 <= i < j < |s| ==> s[i] != s[j]
    ensures forall i, j :: 0 <= i < j < |RemoveAt(s, index)| ==> RemoveAt(s, index)[i] != RemoveAt(s, index)[j]
  {
    var r := RemoveAt(s, index);
    forall i, j | 0 <= i < j < |r| ensures r[i] != r[j] {
      var i' := if i < index then i else i + 1;
      var j' := if j < index then j else j + 1;
      assert r[i] == s[i'] && r[j] == s[j'] && i' < j';
    }
  }

  class ChatClientManager {
    var ids: seq<nat>
    var nicknames: seq<string>
    var endpoints: seq<string>
    var colors: seq<nat>

    /** The four lists stay aligned: one row per online client. */
    ghost predicate Valid()
      reads this
    {
      |ids| == |nicknames| == |endpoints| == |colors|
    }

    function Entries(): (r: seq<Entry>)
      requires Valid()
      reads this
      ensures |r| == |ids|
    {
      Zip(ids, endpoints, nicknames, colors)
    }

    constructor ()
      ensures Valid()
      ensures ids == [] && nicknames == [] && endpoints == [] && colors == []
    {
      ids, nicknames, endpoints, colors := [], [], [], [];
    }

    /** Appends one row: the id, the name, the endpoint string and the default colour. */
    method AddClientData(id: nat, name: string, endpoint: string)
      requires Valid()
      modifies this
      ensures Valid()
      ensures ids == old(ids) + [id]
      ensures nicknames == old(nicknames) + [name]
      ensures endpoints == old(endpoints) + [endpoint]
      ensures colors == old(colors) + [DefaultColor]
      ensures Entries() == old(Entries()) + [Entry(id, endpoint, name, DefaultColor)]
    {
      ids := ids + [id];
      nicknames := nicknames + [name];
      endpoints := endpoints + [endpoint];
      colors := colors + [DefaultColor];
    }

    /** Deletes row `index` from all four lists; List.RemoveAt throws outside 0..Count-1. */
    method RemoveAtIndex(index: nat)
      requires Valid() && index < |ids|
      modifies this
      ensures Valid()
      ensures ids == RemoveAt(old(ids), index)
      ensures nicknames == RemoveAt(old(nicknames), index)
      ensures endpoints == RemoveAt(old(endpoints), index)
      ensures colors == RemoveAt(old(colors), index)
      ensures Entries() == RemoveAt(old(Entries()), index)
    {
      ZipRemoveAt(ids, endpoints, nicknames, colors, index);
      ids := RemoveAt(ids, index);
      nicknames := RemoveAt(nicknames, index);
      endpoints := RemoveAt(endpoints, index);
      colors := RemoveAt(colors, index);
    }

    method ClearLists()
      requires Valid()
      modifies this
      ensures Valid()
      ensures ids == [] && nicknames == [] && endpoints == [] && colors == []
    {
      ids, colors, endpoints, nicknames := [], [], [], [];
    }
  }
}
