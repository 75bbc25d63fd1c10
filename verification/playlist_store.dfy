/**
 * The playlist store: playlists and their items in two tables, with UID
 * generation by bounded retry, validation of queries, and item order
 * renumbered when a playlist is updated.
 */
module PlaylistStore {
  import opened Wrappers

  datatype Playlist = Playlist(id: int, uid: string, name: string, interval: string, orgId: int)

  datatype PlaylistItem = PlaylistItem(playlistId: int, itemType: string, value: string, order: int, title: string)

  /** An item as a command carries it: no playlist id yet. */
  datatype ItemCommand = ItemCommand(itemType: string, value: string, order: int, title: string)

  datatype PlaylistDTO = PlaylistDTO(id: int, uid: string, orgId: int, name: string, interval: string)

  datatype CreateCommand = CreateCommand(name: string, interval: string, items: seq<ItemCommand>, orgId: int)
  datatype UpdateCommand = UpdateCommand(orgId: int, uid: string, name: string, interval: string, items: seq<ItemCommand>)
  datatype ListQuery = ListQuery(name: string, limit: int, orgId: int)

  datatype PlaylistError =
    | CommandValidationFailed
    | PlaylistNotFound
    | FailedGenerateUniqueUid

  /** How many UIDs are tried before giving up. */
  const UidAttempts: nat := 3

  // ---------------------------------------------------------------------------
  // Table functions

  predicate Selects(p: Playlist, uid: string, orgId: int) {
    p.uid == uid && p.orgId == orgId
  }

  ghost predicate UidInUse(playlists: seq<Playlist>, uid: string, orgId: int) {
    exists p :: p in playlists && Selects(p, uid, orgId)
  }

  /** `Get` on a (uid, org) condition: the first matching row. */
  function FirstPlaylist(playlists: seq<Playlist>, uid: string, orgId: int): (r: Option<Playlist>)
    ensures r.Some? ==> r.value in playlists && Selects(r.value, uid, orgId)
    ensures r.None? <==> !UidInUse(playlists, uid, orgId)
  {
    if playlists == [] then None
    else if Selects(playlists[0], uid, orgId) then Some(playlists[0])
    else FirstPlaylist(playlists[1..], uid, orgId)
  }

  /** `DELETE FROM playlist WHERE uid = ? and org_id = ?`. */
  function WithoutPlaylist(playlists: seq<Playlist>, uid: string, orgId: int): (r: seq<Playlist>)
    ensures forall p :: p in r <==> p in playlists && !Selects(p, uid, orgId)
  {
    if playlists == [] then []
    else (if Selects(playlists[0], uid, orgId) then [] else [playlists[0]]) + WithoutPlaylist(playlists[1..], uid, orgId)
  }

  /** `UPDATE playlist SET name, interval WHERE id = ?`. */
  function SetNameInterval(playlists: seq<Playlist>, id: int, name: string, interval: string): (r: seq<Playlist>)
    ensures |r| == |playlists|
    ensures forall i :: 0 <= i < |playlists| ==>
      r[i] == if playlists[i].id == id then playlists[i].(name := name, interval := interval) else playlists[i]
  {
    seq(|playlists|, i requires 0 <= i < |playlists| =>
      if playlists[i].id == id then playlists[i].(name := name, interval := interval) else playlists[i])
  }

  /** `SELECT * FROM playlist_item WHERE playlist_id = ?`, in table order. */
  function ItemsOf(items: seq<PlaylistItem>, playlistId: int): (r: seq<PlaylistItem>)
    ensures forall x :: x in r <==> x in items && x.playlistId == playlistId
  {
    if items == [] then []
    else (if items[0].playlistId == playlistId then [items[0]] else []) + ItemsOf(items[1..], playlistId)
  }

  /** `DELETE FROM playlist_item WHERE playlist_id = ?`. */
  function WithoutItemsOf(items: seq<PlaylistItem>, playlistId: int): (r: seq<PlaylistItem>)
    ensures forall x :: x in r <==> x in items && x.playlistId != playlistId
  {
    if items == [] then []
    else (if items[0].playlistId == playlistId then [] else [items[0]]) + WithoutItemsOf(items[1..], playlistId)
  }

  /** The rows Insert adds for the command's items: each keeps the order it was given. */
  function InsertedItems(playlistId: int, cmds: seq<ItemCommand>): (r: seq<PlaylistItem>)
    ensures |r| == |cmds|
    ensures forall i :: 0 <= i < |cmds| ==>
      r[i] == PlaylistItem(playlistId, cmds[i].itemType, cmds[i].value, cmds[i].order, cmds[i].title)
  {
    seq(|cmds|, i requires 0 <= i < |cmds| =>
      PlaylistItem(playlistId, cmds[i].itemType, cmds[i].value, cmds[i].order, cmds[i].title))
  }

  /** The rows Update adds for the command's items: the i-th gets order i + 1, whatever the command said. */
  function RenumberedItems(playlistId: int, cmds: seq<ItemCommand>): (r: seq<PlaylistItem>)
    ensures |r| == |cmds|
    ensures forall i :: 0 <= i < |cmds| ==>
      r[i] == PlaylistItem(playlistId, cmds[i].itemType, cmds[i].value, i + 1, cmds[i].title)
  {
    seq(|cmds|, i requires 0 <= i < |cmds| =>
      PlaylistItem(playlistId, cmds[i].itemType, cmds[i].value, i + 1, cmds[i].title))
  }

  /** The loop in Update that builds the rows to insert, numbering them from 1. */
  method Renumber(playlistId: int, cmds: seq<ItemCommand>) returns (rows: seq<PlaylistItem>)
    ensures rows == RenumberedItems(playlistId, cmds)
  {
    rows := [];
    var i := 0;
    while i < |cmds|
      invariant 0 <= i <= |cmds|
      invariant rows == RenumberedItems(playlistId, cmds[..i])
    {
      var item := cmds[i];
      rows := rows + [PlaylistItem(playlistId, item.itemType, item.value, i + 1, item.title)];
      i := i + 1;
    }
    assert cmds[..i] == cmds;
  }

  /** `sub` occurs in `s` (the `LIKE '%sub%'` condition). */
  predicate Contains(s: string, sub: string)
    decreases |s|
  {
    (|sub| <= |s| && s[..|sub|] == sub) || (|s| > 0 && Contains(s[1..], sub))
  }

  predicate ListMatches(p: Playlist, q: ListQuery) {
    p.orgId == q.orgId && (q.name == "" || Contains(p.name, q.name))
  }

  function Filtered(playlists: seq<Playlist>, q: ListQuery): (r: seq<Playlist>)
    ensures |r| <= |playlists|
    ensures forall p :: p in r <==> p in playlists && ListMatches(p, q)
  {
    if playlists == [] then []
    else (if ListMatches(playlists[0], q) then [playlists[0]] else []) + Filtered(playlists[1..], q)
  }

  /** `LIMIT n`: a positive limit caps the rows; zero or less puts no limit on them. */
  function Limited(rows: seq<Playlist>, limit: int): (r: seq<Playlist>)
    ensures limit > 0 ==> |r| <= limit
    ensures limit <= 0 || |rows| <= limit ==> r == rows
    ensures r <= rows
  {
    if limit > 0 && limit < |rows| then rows[..limit] else rows
  }

  // ---------------------------------------------------------------------------
  // Lemmas about the tables

  lemma {:induction false} ItemsOfAppend(a: seq<PlaylistItem>, b: seq<PlaylistItem>, playlistId: int)
    ensures ItemsOf(a + b, playlistId) == ItemsOf(a, playlistId) + ItemsOf(b, playlistId)
  {
    if a == [] {
      assert a + b == b;
    } else {
      var head := if a[0].playlistId == playlistId then [a[0]] else [];
      assert (a + b)[0] == a[0];
      assert (a + b)[1..] == a[1..] + b;
      assert ItemsOf(a + b, playlistId) == head + ItemsOf(a[1..] + b, playlistId);
      ItemsOfAppend(a[1..], b, playlistId);
      assert head + (ItemsOf(a[1..], playlistId) + ItemsOf(b, playlistId))
          == (head + ItemsOf(a[1..], playlistId)) + ItemsOf(b, playlistId);
    }
  }

  lemma {:induction false} ItemsOfNone(items: seq<PlaylistItem>, playlistId: int)
    requires forall x :: x in items ==> x.playlistId != playlistId
    ensures ItemsOf(items, playlistId) == []
  {
    if items != [] {
      ItemsOfNone(items[1..], playlistId);
    }
  }

  lemma {:induction false} ItemsOfAll(items: seq<PlaylistItem>, playlistId: int)
    requires forall x :: x in items ==> x.playlistId == playlistId
    ensures ItemsOf(items, playlistId) == items
  {
    if items != [] {
      ItemsOfAll(items[1..], playlistId);
      assert items == [items[0]] + items[1..];
    }
  }

  /** After Insert, the new playlist's items are exactly the inserted ones, in command order. */
  lemma InsertedItemsAreItemsOf(items: seq<PlaylistItem>, playlistId: int, cmds: seq<ItemCommand>)
    requires forall x :: x in items ==> x.playlistId != playlistId
    ensures ItemsOf(items + InsertedItems(playlistId, cmds), playlistId) == InsertedItems(playlistId, cmds)
  {
    ItemsOfAppend(items, InsertedItems(playlistId, cmds), playlistId);
    ItemsOfNone(items, playlistId);
    ItemsOfAll(InsertedItems(playlistId, cmds), playlistId);
  }

  /** After Update, the playlist's items are exactly the command's, numbered 1, 2, ... */
  lemma RenumberedItemsAreItemsOf(items: seq<PlaylistItem>, playlistId: int, cmds: seq<ItemCommand>)
    ensures ItemsOf(WithoutItemsOf(items, playlistId) + RenumberedItems(playlistId, cmds), playlistId)
      == RenumberedItems(playlistId, cmds)
  {
    ItemsOfAppend(WithoutItemsOf(items, playlistId), RenumberedItems(playlistId, cmds), playlistId);
    ItemsOfNone(WithoutItemsOf(items, playlistId), playlistId);
    ItemsOfAll(RenumberedItems(playlistId, cmds), playlistId);
  }

  /** Items of other playlists are untouched by the delete-and-reinsert of one playlist's items. */
  lemma {:induction false} OtherItemsUnchanged(items: seq<PlaylistItem>, playlistId: int, other: int)
    requires other != playlistId
    ensures ItemsOf(WithoutItemsOf(items, playlistId), other) == ItemsOf(items, other)
  {
    if items != [] {
      var head := if items[0].playlistId == playlistId then [] else [items[0]];
      assert WithoutItemsOf(items, playlistId) == head + WithoutItemsOf(items[1..], playlistId);
      ItemsOfAppend(head, WithoutItemsOf(items[1..], playlistId), other);
      OtherItemsUnchanged(items[1..], playlistId, other);
    }
  }

  /** A playlist appended under an unused (uid, org) is what Get then finds. */
  lemma {:induction false} FirstPlaylistAfterAppend(playlists: seq<Playlist>, p: Playlist)
    requires !UidInUse(playlists, p.uid, p.orgId)
    ensures FirstPlaylist(playlists + [p], p.uid, p.orgId) == Some(p)
  {
    if playlists != [] {
      assert (playlists + [p])[1..] == playlists[1..] + [p];
      assert playlists[0] in playlists;
      FirstPlaylistAfterAppend(playlists[1..], p);
    }
  }

  /** `Contains` agrees with an occurrence at some position. */
  lemma {:induction false} ContainsAt(s: string, sub: string, k: nat)
    requires k + |sub| <= |s| && s[k..k + |sub|] == sub
    ensures Contains(s, sub)
    decreases k
  {
    if k > 0 {
      assert s[1..][k - 1..k - 1 + |sub|] == s[k..k + |sub|];
      ContainsAt(s[1..], sub, k - 1);
    }
  }

  class PlaylistStore {
    var playlists: seq<Playlist>
    var items: seq<PlaylistItem>
    /** The next auto-increment id of the playlist table. */
    var nextId: int

    /**
     * Ids are positive and below `nextId`; an item points at a playlist id
     * below `nextId` or at 0, the id Update and Delete use for a playlist
     * they did not find.
     */
    ghost predicate Valid()
      reads this
    {
      && nextId > 0
      && (forall p :: p in playlists ==> 0 < p.id < nextId)
      && (forall x :: x in items ==> 0 <= x.playlistId < nextId)
    }

    constructor ()
      ensures Valid() && playlists == [] && items == [] && nextId == 1
    {
      playlists := [];
      items := [];
      nextId := 1;
    }

    /**
     * generateAndValidateNewPlaylistUid: tries `gen(0)`, `gen(1)`, `gen(2)`
     * and returns the first not already used in the org.
     */
    method GenerateAndValidateNewPlaylistUid(orgId: int, gen: nat -> string) returns (uid: string, err: Option<PlaylistError>)
      ensures err.None? ==>
        exists k :: 0 <= k < UidAttempts && uid == gen(k) && !UidInUse(playlists, uid, orgId)
                    && forall j :: 0 <= j < k ==> UidInUse(playlists, gen(j), orgId)
      ensures err.Some? ==>
        && err == Some(FailedGenerateUniqueUid) && uid == ""
        && forall j :: 0 <= j < UidAttempts ==> UidInUse(playlists, gen(j), orgId)
    {
      var i := 0;
      while i < UidAttempts
        invariant 0 <= i <= UidAttempts
        invariant forall j :: 0 <= j < i ==> UidInUse(playlists, gen(j), orgId)
      {
        var candidate := gen(i);
        var exists_ := FirstPlaylist(playlists, candidate, orgId).Some?;
        if !exists_ {
          return candidate, None;
        }
        i := i + 1;
      }
      return "", Some(FailedGenerateUniqueUid);
    }

    /**
     * Insert: a fresh UID, a new playlist row with the command's name,
     * interval and org, and one item row per command item with its order.
     */
    method Insert(cmd: CreateCommand, gen: nat -> string) returns (p: Playlist, err: Option<PlaylistError>)
      requires Valid()
      modifies this
      ensures Valid()
      ensures err.Some? ==>
        && err == Some(FailedGenerateUniqueUid) && p == Playlist(0, "", "", "", 0)
        && playlists == old(playlists) && items == old(items) && nextId == old(nextId)
      ensures err.None? ==>
        && p == Playlist(old(nextId), p.uid, cmd.name, cmd.interval, cmd.orgId)
        && !UidInUse(old(playlists), p.uid, cmd.orgId)
        && (exists k :: 0 <= k < UidAttempts && p.uid == gen(k))
        && playlists == old(playlists) + [p]
        && items == old(items) + InsertedItems(p.id, cmd.items)
        && nextId == old(nextId) + 1
        && FirstPlaylist(playlists, p.uid, p.orgId) == Some(p)
        && ItemsOf(items, p.id) == InsertedItems(p.id, cmd.items)
    {
      p := Playlist(0, "", "", "", 0);
      var uid;
      uid, err := GenerateAndValidateNewPlaylistUid(cmd.orgId, gen);
      if err.Some? {
        return;
      }
      p := Playlist(nextId, uid, cmd.name, cmd.interval, cmd.orgId);
      FirstPlaylistAfterAppend(playlists, p);
      playlists := playlists + [p];
      nextId := nextId + 1;

      var playlistItems: seq<PlaylistItem> := [];
      var i := 0;
      while i < |cmd.items|
        invariant 0 <= i <= |cmd.items|
        invariant playlistItems == InsertedItems(p.id, cmd.items[..i])
      {
        var item := cmd.items[i];
        playlistItems := playlistItems + [PlaylistItem(p.id, item.itemType, item.value, item.order, item.title)];
        i := i + 1;
      }
      assert cmd.items[..i] == cmd.items;
      InsertedItemsAreItemsOf(items, p.id, cmd.items);
      items := items + playlistItems;
    }

    /**
     * Update: looks the playlist up (a miss is not an error; the id is then
     * 0), sets name and interval of the row with that id, deletes the
     * id's items and inserts the command's items numbered from 1.
     */
    method Update(cmd: UpdateCommand) returns (dto: PlaylistDTO)
      requires Valid()
      modifies this`playlists, this`items
      ensures Valid()
      ensures var id := match FirstPlaylist(old(playlists), cmd.uid, cmd.orgId)
                        case Some(e) => e.id
                        case None => 0;
        && dto == PlaylistDTO(id, cmd.uid, cmd.orgId, cmd.name, cmd.interval)
        && playlists == SetNameInterval(old(playlists), id, cmd.name, cmd.interval)
        && items == WithoutItemsOf(old(items), id) + RenumberedItems(id, cmd.items)
        && ItemsOf(items, id) == RenumberedItems(id, cmd.items)
        && forall other :: other != id ==> ItemsOf(items, other) == ItemsOf(old(items), other)
    {
      var existing := FirstPlaylist(playlists, cmd.uid, cmd.orgId);
      var id := if existing.Some? then existing.value.id else 0;
      dto := PlaylistDTO(id, cmd.uid, cmd.orgId, cmd.name, cmd.interval);
      playlists := SetNameInterval(playlists, id, cmd.name, cmd.interval);

      var playlistItems := Renumber(id, cmd.items);
      RenumberedItemsAreItemsOf(items, id, cmd.items);
      forall other | other != id
        ensures ItemsOf(WithoutItemsOf(items, id) + playlistItems, other) == ItemsOf(items, other)
      {
        ItemsOfAppend(WithoutItemsOf(items, id), playlistItems, other);
        ItemsOfNone(playlistItems, other);
        OtherItemsUnchanged(items, id, other);
      }
      items := WithoutItemsOf(items, id) + playlistItems;
    }

    /**
     * Get: an empty UID or org 0 is rejected with no playlist; a miss is
     * PlaylistNotFound together with the lookup key, a playlist holding only
     * the UID and the org.
     */
    method Get(uid: string, orgId: int) returns (p: Option<Playlist>, err: Option<PlaylistError>)
      ensures uid == "" || orgId == 0 ==> p.None? && err == Some(CommandValidationFailed)
      ensures uid != "" && orgId != 0 ==>
        && (err.None? || err == Some(PlaylistNotFound))
        && (err == Some(PlaylistNotFound) <==> !UidInUse(playlists, uid, orgId))
        && (err.None? ==> p.Some? && p.value in playlists && Selects(p.value, uid, orgId)
                          && p == FirstPlaylist(playlists, uid, orgId))
        && (err.Some? ==> p == Some(Playlist(0, uid, "", "", orgId)))
    {
      if uid == "" || orgId == 0 {
        return None, Some(CommandValidationFailed);
      }
      var found := FirstPlaylist(playlists, uid, orgId);
      if found.None? {
        return Some(Playlist(0, uid, "", "", orgId)), Some(PlaylistNotFound);
      }
      return found, None;
    }

    /**
     * Delete: validation as in Get; then the (uid, org) rows and the items
     * of the found id (0 when none was found) are deleted.
     */
    method Delete(uid: string, orgId: int) returns (err: Option<PlaylistError>)
      requires Valid()
      modifies this`playlists, this`items
      ensures Valid()
      ensures uid == "" || orgId == 0 ==>
        err == Some(CommandValidationFailed) && playlists == old(playlists) && items == old(items)
      ensures uid != "" && orgId != 0 ==>
        var id := match FirstPlaylist(old(playlists), uid, orgId)
                  case Some(e) => e.id
                  case None => 0;
        && err.None?
        && playlists == WithoutPlaylist(old(playlists), uid, orgId)
        && items == WithoutItemsOf(old(items), id)
        && !UidInUse(playlists, uid, orgId)
        && ItemsOf(items, id) == []
    {
      if uid == "" || orgId == 0 {
        return Some(CommandValidationFailed);
      }
      var existing := FirstPlaylist(playlists, uid, orgId);
      var id := if existing.Some? then existing.value.id else 0;
      playlists := WithoutPlaylist(playlists, uid, orgId);
      items := WithoutItemsOf(items, id);
      ItemsOfNone(items, id);
      return None;
    }

    /** List: org 0 is rejected; otherwise the org's playlists, filtered by name when given, up to the limit. */
    method List(q: ListQuery) returns (result: seq<Playlist>, err: Option<PlaylistError>)
      ensures q.orgId == 0 ==> result == [] && err == Some(CommandValidationFailed)
      ensures q.orgId != 0 ==> err.None? && result == Limited(Filtered(playlists, q), q.limit)
      ensures forall p :: p in result ==> p in playlists && p.orgId == q.orgId && (q.name == "" || Contains(p.name, q.name))
      ensures q.limit > 0 ==> |result| <= q.limit
    {
      if q.orgId == 0 {
        return [], Some(CommandValidationFailed);
      }
      var rows := Filtered(playlists, q);
      result := Limited(rows, q.limit);
      assert forall p :: p in result ==> p in rows;
      err := None;
    }

    /** GetItems: validation as in Get, then Get's own error, then the items of the found playlist. */
    method GetItems(playlistUid: string, orgId: int) returns (result: seq<PlaylistItem>, err: Option<PlaylistError>)
      ensures playlistUid == "" || orgId == 0 ==> result == [] && err == Some(CommandValidationFailed)
      ensures playlistUid != "" && orgId != 0 ==>
        match FirstPlaylist(playlists, playlistUid, orgId)
        case None => result == [] && err == Some(PlaylistNotFound)
        case Some(p) => err.None? && result == ItemsOf(items, p.id)
    {
      if playlistUid == "" || orgId == 0 {
        return [], Some(CommandValidationFailed);
      }
      var p, getErr := Get(playlistUid, orgId);
      if getErr.Some? {
        return [], getErr;
      }
      return ItemsOf(items, p.value.id), None;
    }
  }
}
