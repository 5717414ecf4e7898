/**
 * backend/apps/teams: the check on hierarchy links and the table of node
 * positions on the hierarchy canvas, with its upsert.
 * (`format_user_name` in serializers.py is `Accounts.FormatUserName`.)
 */
module Teams {
  import opened Common
  import opened Models
  import Sorting

  /** The writable fields of a `Hierarchy` as a request carries them. */
  datatype HierarchyData = HierarchyData(supervisor: UserId, gerente: Option<UserId>, desenvolvedor: Option<UserId>)

  const MissingLinkText := "É necessário fornecer pelo menos um gerente ou um desenvolvedor."

  /** `HierarchySerializer.validate`: a link needs a gerente or a desenvolvedor; valid data goes through unchanged. */
  function ValidateHierarchy(data: HierarchyData): (r: Validated<HierarchyData>)
    ensures r.Rejected? <==> data.gerente.None? && data.desenvolvedor.None?
    ensures r.Rejected? ==> r.message == MissingLinkText
    ensures r.Accepted? ==> r.value == data
  {
    if data.gerente.None? && data.desenvolvedor.None? then Rejected(MissingLinkText) else Accepted(data)
  }

  /** Validating twice is validating once: valid data stays valid. */
  lemma ValidateHierarchyIdempotent(data: HierarchyData)
    requires ValidateHierarchy(data).Accepted?
    ensures ValidateHierarchy(ValidateHierarchy(data).value) == ValidateHierarchy(data)
  {
  }

  // ------------------------------------------------------------------
  // NodePosition
  // ------------------------------------------------------------------

  /** A `NodePosition` row; `updatedAt` is the `auto_now` instant of its last save. */
  datatype NodePosition = NodePosition(user: UserId, x: real, y: real, updatedAt: int)

  /** The fields a create request may carry. */
  datatype PositionData = PositionData(user: Option<UserId>, x: Option<real>, y: Option<real>)

  /** `user` is a one-to-one field: no two rows share a user. */
  predicate OnePerUser(rows: seq<NodePosition>)
  {
    forall i, j :: 0 <= i < j < |rows| ==> rows[i].user != rows[j].user
  }

  /** The index of the row of user `u`, if there is one. */
  function RowOf(rows: seq<NodePosition>, u: UserId): (r: Option<nat>)
    ensures r.Some? ==> r.value < |rows| && rows[r.value].user == u
    ensures r.None? ==> forall k :: 0 <= k < |rows| ==> rows[k].user != u
  {
    if |rows| == 0 then None
    else if rows[|rows| - 1].user == u then Some(|rows| - 1)
    else RowOf(rows[..|rows| - 1], u)
  }

  /** A partial update: the fields the request carries replace the stored ones. */
  function Patched(p: NodePosition, data: PositionData, now: int): (r: NodePosition)
    ensures r.user == p.user && r.updatedAt == now
    ensures r.x == (if data.x.Some? then data.x.value else p.x)
    ensures r.y == (if data.y.Some? then data.y.value else p.y)
  {
    NodePosition(p.user,
                 if data.x.Some? then data.x.value else p.x,
                 if data.y.Some? then data.y.value else p.y,
                 now)
  }

  /** The order key of `NodePosition`'s `Meta.ordering = ['user']`. */
  function UserKey(p: NodePosition): seq<int>
  {
    [p.user]
  }

  /** The node-position table. */
  class PositionTable {
    var rows: seq<NodePosition>

    ghost predicate Valid()
      reads this
    {
      OnePerUser(rows)
    }

    constructor()
      ensures rows == [] && Valid()
    {
      rows := [];
    }

    /**
     * `NodePositionViewSet.create`, an upsert: 400 without a user; the
     * user's stored position is patched with 200; otherwise a new row is
     * stored with 201 when the user exists and both coordinates are given,
     * and the serializer's 400 leaves the table alone.
     */
    method Create(users: set<UserId>, data: PositionData, now: int) returns (status: int)
      requires Valid()
      modifies this
      ensures Valid()
      ensures data.user.None? ==> status == 400 && rows == old(rows)
      ensures data.user.Some? && RowOf(old(rows), data.user.value).Some? ==>
                var k := RowOf(old(rows), data.user.value).value;
                status == 200 && rows == old(rows)[k := Patched(old(rows)[k], data, now)]
      ensures data.user.Some? && RowOf(old(rows), data.user.value).None?
              && data.user.value in users && data.x.Some? && data.y.Some? ==>
                status == 201 && rows == old(rows) + [NodePosition(data.user.value, data.x.value, data.y.value, now)]
      ensures data.user.Some? && RowOf(old(rows), data.user.value).None?
              && !(data.user.value in users && data.x.Some? && data.y.Some?) ==>
                status == 400 && rows == old(rows)
    {
      if data.user.None? {
        return 400;
      }
      var u := data.user.value;
      var k := RowOf(rows, u);
      if k.Some? {
        rows := rows[k.value := Patched(rows[k.value], data, now)];
        return 200;
      }
      if !(u in users && data.x.Some? && data.y.Some?) {
        return 400;
      }
      rows := rows + [NodePosition(u, data.x.value, data.y.value, now)];
      status := 201;
    }

    /** `bulk`: every stored position, in the model's default order by user. */
    method Bulk() returns (r: seq<NodePosition>)
      ensures multiset(r) == multiset(rows)
      ensures forall i, j :: 0 <= i < j < |r| ==> r[i].user <= r[j].user
    {
      r := Sorting.SortBy(rows, UserKey);
      Sorting.SortBySorted(rows, UserKey);
      forall i, j | 0 <= i < j < |r|
        ensures r[i].user <= r[j].user
      {
        Sorting.LexLeSingleton(r[i].user, r[j].user);
      }
    }
  }

  /** An upsert never adds a second row for a user: the table grows only for a user without one. */
  lemma UpsertGrowsOnlyForNewUser(rows: seq<NodePosition>, u: UserId, p: NodePosition)
    requires OnePerUser(rows) && p.user == u
    ensures OnePerUser(rows + [p]) <==> RowOf(rows, u).None?
  {
    if RowOf(rows, u).Some? {
      var k := RowOf(rows, u).value;
      assert (rows + [p])[k].user == (rows + [p])[|rows|].user;
    }
  }
}
