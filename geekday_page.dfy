/**
 * frontend/src/pages/GeekDay.tsx: the draw page. It turns the users not
 * yet drawn into the sectors of the prize wheel, resolves where a dragged
 * user card was dropped, gates the controls by role and derives display
 * names and initials.
 *
 * Users arrive as the status list the server sends; roles are the raw
 * strings of that list. The DOM lookup the drop handler falls back on
 * enters as a flag.
 */
module GeekDayPage {
  import opened Common
  import Sorting

  /** One entry of the status list, as the page reads it. */
  datatype WheelUser = WheelUser(id: string, username: string, firstName: string, lastName: string,
                                 role: string, jaSorteado: bool)

  // ------------------------------------------------------------------
  // Wheel sectors (`getSectors`)
  // ------------------------------------------------------------------

  /** The wheel takes at most this many sectors. */
  const MaxSectors := 24

  /** Every sector has the same weight. */
  const SectorProbability := 10

  const RoleOrder: seq<string> := ["supervisor", "gerente", "desenvolvedor", "dados", "processos", "admin"]

  /** `indexOf`: the first position of `x`, or -1. */
  function IndexOf(s: seq<string>, x: string): (r: int)
    ensures -1 <= r < |s|
    ensures r == -1 <==> x !in s
    ensures r >= 0 ==> s[r] == x && forall i :: 0 <= i < r ==> s[i] != x
  {
    if |s| == 0 then -1
    else if s[0] == x then 0
    else
      var k := IndexOf(s[1..], x);
      if k == -1 then -1 else k + 1
  }

  /** `roleOrder.indexOf(role || 'desenvolvedor')`: an unknown role ranks -1, before every known one. */
  function RoleRank(u: WheelUser): int
  {
    IndexOf(RoleOrder, if u.role == "" then "desenvolvedor" else u.role)
  }

  function RankKey(u: WheelUser): seq<int>
  {
    [RoleRank(u)]
  }

  /** A wheel sector; `caption` is the sector's `label`. */
  datatype Sector = Sector(id: string, caption: string, text: string, probability: int)

  function SectorOf(u: WheelUser): Sector
  {
    Sector(u.id, DisplayName(u), DisplayName(u), SectorProbability)
  }

  predicate Available(u: WheelUser)
  {
    !u.jaSorteado
  }

  /** The users the wheel shows: the first 24 not yet drawn, grouped by role; none when fewer than 2 remain. */
  function WheelUsers(users: seq<WheelUser>): seq<WheelUser>
  {
    var available := FilterSeq(users, Available);
    if |available| < 2 then []
    else Sorting.SortBy(available[..if |available| < MaxSectors then |available| else MaxSectors], RankKey)
  }

  function GetSectors(users: seq<WheelUser>): (r: seq<Sector>)
    ensures |r| == |WheelUsers(users)| && forall i :: 0 <= i < |r| ==> r[i] == SectorOf(WheelUsers(users)[i])
  {
    var w := WheelUsers(users);
    seq(|w|, i requires 0 <= i < |w| => SectorOf(w[i]))
  }

  /**
   * The wheel is empty exactly when fewer than two users remain, and
   * otherwise has between 2 and 24 sectors, all of weight 10.
   */
  lemma SectorsSize(users: seq<WheelUser>)
    ensures var available := FilterSeq(users, Available);
            var r := GetSectors(users);
            (|r| == 0 <==> |available| < 2)
            && (|available| >= 2 ==> |r| == if |available| < MaxSectors then |available| else MaxSectors)
            && |r| <= MaxSectors
            && forall s :: s in r ==> s.probability == SectorProbability
  {
  }

  /**
   * The wheel shows exactly the first 24 users not yet drawn, as a
   * rearrangement, with roles in the order supervisor, gerente,
   * desenvolvedor, dados, processos, admin.
   */
  lemma WheelUsersMeaning(users: seq<WheelUser>)
    requires |FilterSeq(users, Available)| >= 2
    ensures var available := FilterSeq(users, Available);
            var w := WheelUsers(users);
            multiset(w) == multiset(available[..if |available| < MaxSectors then |available| else MaxSectors])
            && (forall u :: u in w ==> u in users && !u.jaSorteado)
            && (forall i, j :: 0 <= i < j < |w| ==> RoleRank(w[i]) <= RoleRank(w[j]))
  {
    var available := FilterSeq(users, Available);
    var first := available[..if |available| < MaxSectors then |available| else MaxSectors];
    var w := WheelUsers(users);
    Sorting.SortBySorted(first, RankKey);
    forall i, j | 0 <= i < j < |w|
      ensures RoleRank(w[i]) <= RoleRank(w[j])
    {
      Sorting.LexLeSingleton(RoleRank(w[i]), RoleRank(w[j]));
    }
    forall u | u in w
      ensures u in users && !u.jaSorteado
    {
      Sorting.SortByMembers(first, RankKey, u);
      assert u in available;
    }
  }

  /** A user with an empty role ranks as a developer, and an unknown role ranks first. */
  lemma RoleRankMeaning(u: WheelUser)
    ensures u.role == "" ==> RoleRank(u) == 2
    ensures u.role != "" && u.role !in RoleOrder ==> RoleRank(u) == -1
    ensures u.role in RoleOrder ==> 0 <= RoleRank(u) && RoleOrder[RoleRank(u)] == u.role
  {
    assert RoleOrder[0] != "desenvolvedor" && RoleOrder[1] != "desenvolvedor" && RoleOrder[2] == "desenvolvedor";
  }

  // ------------------------------------------------------------------
  // Role gates
  // ------------------------------------------------------------------

  /** `isSupervisor`: may drag users between the lists. */
  predicate CanDrag(role: Option<string>)
  {
    role == Some("supervisor") || role == Some("admin")
  }

  /** `isGestor`: may spin the wheel. */
  predicate CanSpin(role: Option<string>)
  {
    role == Some("supervisor") || role == Some("gerente") || role == Some("admin")
  }

  /** `canReset`. */
  predicate CanReset(role: Option<string>)
  {
    role == Some("supervisor") || role == Some("gerente") || role == Some("admin")
  }

  /**
   * Whoever may drag may also spin; a gerente may spin and reset but not
   * drag; reset is offered to exactly those who may spin; nobody logged
   * out may do anything.
   */
  lemma GatesOrdered(role: Option<string>)
    ensures CanDrag(role) ==> CanSpin(role)
    ensures CanReset(role) <==> CanSpin(role)
    ensures CanSpin(Some("gerente")) && !CanDrag(Some("gerente"))
    ensures !CanSpin(None) && !CanDrag(None) && !CanReset(None)
    ensures CanSpin(role) <==> role.Some? && role.value in {"supervisor", "gerente", "admin"}
  {
  }

  // ------------------------------------------------------------------
  // Dropping a user card (`handleDragEnd`)
  // ------------------------------------------------------------------

  const SortedList := "sorted-list"
  const AvailableList := "available-list"

  /** What a drop asks of the server. */
  datatype DropAction = Ignored | Mark(userId: string) | Unmark(userId: string)

  /** `users.find((u) => String(u.id) === String(id))`. */
  function FindWheelUser(users: seq<WheelUser>, id: string): (r: Option<WheelUser>)
    ensures r.Some? ==> r.value in users && r.value.id == id
    ensures r.None? ==> forall u :: u in users ==> u.id != id
  {
    if |users| == 0 then None
    else if users[0].id == id then Some(users[0])
    else FindWheelUser(users[1..], id)
  }

  function ListOf(u: WheelUser): string
  {
    if u.jaSorteado then SortedList else AvailableList
  }

  /**
   * The list a drop lands in: the droppable list itself, the list of the
   * card it was dropped on, or, when the active card is still in the
   * page, the list opposite to the dragged user's.
   */
  function DropTarget(users: seq<WheelUser>, dragged: WheelUser, overId: string, activeElementFound: bool): Option<string>
  {
    if overId == SortedList || overId == AvailableList then Some(overId)
    else
      match FindWheelUser(users, overId)
      case Some(t) => Some(ListOf(t))
      case None => if activeElementFound then Some(if dragged.jaSorteado then AvailableList else SortedList) else None
  }

  function HandleDragEnd(users: seq<WheelUser>, activeId: string, overId: Option<string>, role: Option<string>,
                         wasDragging: bool, activeElementFound: bool): DropAction
  {
    if overId.None? || !CanDrag(role) || !wasDragging then Ignored
    else
      match FindWheelUser(users, activeId)
      case None => Ignored
      case Some(dragged) =>
        match DropTarget(users, dragged, overId.value, activeElementFound)
        case None => Ignored
        case Some(target) =>
          if target == ListOf(dragged) then Ignored
          else if target == SortedList then Mark(dragged.id)
          else Unmark(dragged.id)
  }

  /**
   * Without a drop zone, the right role or a drag in progress nothing
   * happens; otherwise a drop into the user's own list (directly or onto a
   * card of it) does nothing, a drop into the drawn list marks the user and
   * a drop into the available list unmarks them.
   */
  lemma DropMeaning(users: seq<WheelUser>, activeId: string, overId: Option<string>, role: Option<string>,
                    wasDragging: bool, activeElementFound: bool)
    ensures var a := HandleDragEnd(users, activeId, overId, role, wasDragging, activeElementFound);
            (overId.None? || !CanDrag(role) || !wasDragging || FindWheelUser(users, activeId).None? ==> a == Ignored)
            && (a.Mark? ==> exists u :: u in users && u.id == activeId && a.userId == activeId && !u.jaSorteado)
            && (a.Unmark? ==> exists u :: u in users && u.id == activeId && a.userId == activeId && u.jaSorteado)
  {
    var a := HandleDragEnd(users, activeId, overId, role, wasDragging, activeElementFound);
    if a != Ignored {
      var dragged := FindWheelUser(users, activeId).value;
      assert dragged in users && dragged.id == activeId;
    }
  }

  /** Dropping onto a card moves the dragged user into that card's list, or does nothing when it is the same list. */
  lemma DropOnCard(users: seq<WheelUser>, activeId: string, target: WheelUser, role: Option<string>, found: bool)
    requires CanDrag(role) && FindWheelUser(users, activeId).Some?
    requires target.id != SortedList && target.id != AvailableList
    requires FindWheelUser(users, target.id) == Some(target)
    ensures var dragged := FindWheelUser(users, activeId).value;
            var a := HandleDragEnd(users, activeId, Some(target.id), role, true, found);
            (target.jaSorteado == dragged.jaSorteado ==> a == Ignored)
            && (target.jaSorteado && !dragged.jaSorteado ==> a == Mark(activeId))
            && (!target.jaSorteado && dragged.jaSorteado ==> a == Unmark(activeId))
  {
  }

  /** `setUsers(prev => prev.map(...))`: the moved user's flag becomes the target's, nobody else changes. */
  function ApplyMove(users: seq<WheelUser>, id: string, sorted: bool): (r: seq<WheelUser>)
    ensures |r| == |users|
    ensures forall i :: 0 <= i < |users| ==>
              r[i] == if users[i].id == id then users[i].(jaSorteado := sorted) else users[i]
  {
    seq(|users|, i requires 0 <= i < |users| => if users[i].id == id then users[i].(jaSorteado := sorted) else users[i])
  }

  /** After a mark, the user is in the drawn list and leaves the wheel; after an unmark it is back among the available. */
  lemma MoveUpdatesWheel(users: seq<WheelUser>, id: string, sorted: bool)
    ensures forall u :: u in ApplyMove(users, id, sorted) && u.id == id ==> u.jaSorteado == sorted
    ensures forall u :: u in ApplyMove(users, id, sorted) && u.id != id ==> u in users
    ensures sorted ==> forall u :: u in WheelUsers(ApplyMove(users, id, sorted)) ==> u.id != id
  {
    var moved := ApplyMove(users, id, sorted);
    if sorted && |FilterSeq(moved, Available)| >= 2 {
      WheelUsersMeaning(moved);
    }
  }

  // ------------------------------------------------------------------
  // Names and initials
  // ------------------------------------------------------------------

  /** `getUserDisplayName`. */
  function DisplayName(u: WheelUser): string
  {
    if u.firstName != "" && u.lastName != "" then u.firstName + " " + u.lastName
    else if u.firstName != "" then u.firstName
    else if u.lastName != "" then u.lastName
    else u.username
  }

  /** `substring(0, 2)`. */
  function FirstTwo(s: string): (r: string)
    ensures |r| == if |s| < 2 then |s| else 2
    ensures r <= s
  {
    s[..if |s| < 2 then |s| else 2]
  }

  /** `getUserInitials`. */
  function Initials(u: WheelUser): string
  {
    if u.firstName != "" && u.lastName != "" then Upper([u.firstName[0], u.lastName[0]])
    else if u.firstName != "" then Upper(FirstTwo(u.firstName))
    else if u.lastName != "" then Upper(FirstTwo(u.lastName))
    else Upper(FirstTwo(u.username))
  }

  /**
   * The initials start with the upper-cased first letter of the display
   * name; they are two letters with both names, else at most two letters
   * of the display name.
   */
  lemma InitialsOfDisplayName(u: WheelUser)
    ensures var d := DisplayName(u);
            var i := Initials(u);
            (|d| > 0 ==> |i| > 0 && i[0] == UpperChar(d[0]))
            && (u.firstName != "" && u.lastName != "" ==>
                  d == u.firstName + " " + u.lastName && i == [UpperChar(u.firstName[0]), UpperChar(u.lastName[0])])
            && (!(u.firstName != "" && u.lastName != "") ==> i == Upper(FirstTwo(d)))
  {
  }
}
