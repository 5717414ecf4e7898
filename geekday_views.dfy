/**
 * backend/apps/geekday/views.py: the Geek Day draw table and the actions
 * on it — the status list, the random draw, marking and unmarking a user
 * by hand, and the reset.
 *
 * Instants are seconds; a draw's date is its instant divided by
 * `DaySeconds`. The user table is a sequence of accounts, looked up by id.
 */
module GeekDayViews {
  import opened Common
  import opened Models
  import opened Accounts

  /** A user row with its primary key. */
  datatype Account = Account(id: UserId, user: User)

  /** A `GeekDayDraw` row. */
  datatype Draw = Draw(
    usuario: UserId,
    sorteadoPor: Option<UserId>,
    dataSorteio: int,
    marcadoManual: bool,
    observacoes: Option<string>)

  /** `request.user.role in ['supervisor', 'gerente', 'admin']`. */
  predicate IsGestor(r: Role)
  {
    r == Supervisor || r == Gerente || r == Admin
  }

  /** `User.objects.get(id=...)`: the account with that id, if any. */
  function FindAccount(users: seq<Account>, id: UserId): (r: Option<User>)
    ensures r.Some? <==> exists k :: 0 <= k < |users| && users[k].id == id
    ensures r.Some? ==> Account(id, r.value) in users
  {
    if |users| == 0 then None
    else if users[0].id == id then Some(users[0].user)
    else FindAccount(users[1..], id)
  }

  predicate HasDraw(draws: seq<Draw>, u: UserId)
  {
    exists k :: 0 <= k < |draws| && draws[k].usuario == u
  }

  /** How many draws user `u` has. */
  function DrawCount(draws: seq<Draw>, u: UserId): (n: nat)
    ensures n <= |draws|
  {
    if |draws| == 0 then 0
    else DrawCount(draws[..|draws| - 1], u) + (if draws[|draws| - 1].usuario == u then 1 else 0)
  }

  /** `draws[k]` is one of `u`'s draws with the latest instant. */
  predicate IsLatestOf(draws: seq<Draw>, u: UserId, k: int)
  {
    0 <= k < |draws| && draws[k].usuario == u
    && forall j :: 0 <= j < |draws| && draws[j].usuario == u ==> draws[j].dataSorteio <= draws[k].dataSorteio
  }

  // ------------------------------------------------------------------
  // users_status: the two per-user aggregates
  // ------------------------------------------------------------------

  /** `{usuario: Max('data_sorteio')}` over the draws seen so far. */
  function LatestMap(draws: seq<Draw>): map<UserId, int>
  {
    if |draws| == 0 then map[]
    else
      var m := LatestMap(draws[..|draws| - 1]);
      var x := draws[|draws| - 1];
      m[x.usuario := if x.usuario in m && m[x.usuario] >= x.dataSorteio then m[x.usuario] else x.dataSorteio]
  }

  /** `{usuario: Count('id')}` over the draws seen so far. */
  function TotalsMap(draws: seq<Draw>): map<UserId, nat>
  {
    if |draws| == 0 then map[]
    else
      var m := TotalsMap(draws[..|draws| - 1]);
      var x := draws[|draws| - 1];
      m[x.usuario := (if x.usuario in m then m[x.usuario] else 0) + 1]
  }

  /** The latest-draw map has a key exactly for the users with a draw, holding their latest instant. */
  lemma {:induction false} LatestMapMeaning(draws: seq<Draw>, u: UserId)
    ensures u in LatestMap(draws) <==> HasDraw(draws, u)
    ensures u in LatestMap(draws) ==> exists k :: IsLatestOf(draws, u, k) && draws[k].dataSorteio == LatestMap(draws)[u]
  {
    if |draws| > 0 {
      var init := draws[..|draws| - 1];
      var x := draws[|draws| - 1];
      LatestMapMeaning(init, u);
      var m := LatestMap(init);
      if x.usuario == u {
        if u in m && m[u] >= x.dataSorteio {
          var k :| IsLatestOf(init, u, k) && init[k].dataSorteio == m[u];
          assert IsLatestOf(draws, u, k);
        } else {
          if u in m {
            var k :| IsLatestOf(init, u, k) && init[k].dataSorteio == m[u];
          }
          assert IsLatestOf(draws, u, |draws| - 1);
        }
      } else {
        if u in m {
          var k :| IsLatestOf(init, u, k) && init[k].dataSorteio == m[u];
          assert IsLatestOf(draws, u, k);
        }
        assert HasDraw(init, u) <==> HasDraw(draws, u) by {
          if HasDraw(draws, u) {
            var k :| 0 <= k < |draws| && draws[k].usuario == u;
            assert init[k] == draws[k];
          }
        }
      }
    }
  }

  /** The totals map holds each user's number of draws, and has no key for a user without one. */
  lemma {:induction false} TotalsMapMeaning(draws: seq<Draw>, u: UserId)
    ensures u in TotalsMap(draws) <==> HasDraw(draws, u)
    ensures u in TotalsMap(draws) ==> TotalsMap(draws)[u] == DrawCount(draws, u)
    ensures u !in TotalsMap(draws) ==> DrawCount(draws, u) == 0
  {
    if |draws| > 0 {
      var init := draws[..|draws| - 1];
      var x := draws[|draws| - 1];
      TotalsMapMeaning(init, u);
      if x.usuario == u {
        assert HasDraw(draws, u) by { assert draws[|draws| - 1].usuario == u; }
      } else {
        assert HasDraw(init, u) <==> HasDraw(draws, u) by {
          if HasDraw(draws, u) {
            var k :| 0 <= k < |draws| && draws[k].usuario == u;
            assert init[k] == draws[k];
          }
        }
      }
    }
  }

  /** One entry of the status list. */
  datatype UserStatus = UserStatus(
    id: UserId,
    username: string,
    firstName: string,
    lastName: string,
    email: string,
    role: Role,
    jaSorteado: bool,
    totalSorteios: nat,
    ultimoSorteio: Option<int>)

  function StatusRow(a: Account, latest: map<UserId, int>, totals: map<UserId, nat>): UserStatus
  {
    UserStatus(a.id, a.user.username, a.user.firstName, a.user.lastName, a.user.email, a.user.role,
               a.id in latest,
               if a.id in totals then totals[a.id] else 0,
               if a.id in latest then Some(latest[a.id]) else None)
  }

  /** The status entries of the non-admin accounts, in table order. */
  function StatusList(users: seq<Account>, latest: map<UserId, int>, totals: map<UserId, nat>): seq<UserStatus>
  {
    if |users| == 0 then []
    else
      StatusList(users[..|users| - 1], latest, totals)
      + (if users[|users| - 1].user.role == Admin then [] else [StatusRow(users[|users| - 1], latest, totals)])
  }

  lemma {:induction false} StatusListMembers(users: seq<Account>, latest: map<UserId, int>, totals: map<UserId, nat>,
                                             s: UserStatus)
    ensures s in StatusList(users, latest, totals) <==>
              exists k :: 0 <= k < |users| && users[k].user.role != Admin && s == StatusRow(users[k], latest, totals)
  {
    if |users| > 0 {
      var init := users[..|users| - 1];
      StatusListMembers(init, latest, totals, s);
      if s in StatusList(users, latest, totals) && s !in StatusList(init, latest, totals) {
        assert s == StatusRow(users[|users| - 1], latest, totals);
      }
      if exists k :: 0 <= k < |users| && users[k].user.role != Admin && s == StatusRow(users[k], latest, totals) {
        var k :| 0 <= k < |users| && users[k].user.role != Admin && s == StatusRow(users[k], latest, totals);
        if k < |users| - 1 {
          assert init[k] == users[k];
        }
      }
    }
  }

  /**
   * What `users_status` reports: one entry for each non-admin account and
   * none for admins; `ja_sorteado` holds exactly when the user has a draw,
   * the total is their number of draws and the last instant is their
   * latest draw's.
   */
  lemma UsersStatusMeaning(users: seq<Account>, draws: seq<Draw>, a: Account)
    requires a in users
    ensures var s := StatusRow(a, LatestMap(draws), TotalsMap(draws));
            (s in StatusList(users, LatestMap(draws), TotalsMap(draws)) <==> a.user.role != Admin)
            && (s.jaSorteado <==> HasDraw(draws, a.id))
            && s.totalSorteios == DrawCount(draws, a.id)
            && (s.ultimoSorteio.Some? <==> HasDraw(draws, a.id))
            && (s.ultimoSorteio.Some? ==> exists k :: IsLatestOf(draws, a.id, k) && draws[k].dataSorteio == s.ultimoSorteio.value)
  {
    LatestMapMeaning(draws, a.id);
    TotalsMapMeaning(draws, a.id);
    var latest, totals := LatestMap(draws), TotalsMap(draws);
    StatusListMembers(users, latest, totals, StatusRow(a, latest, totals));
    var i :| 0 <= i < |users| && users[i] == a;
    if StatusRow(a, latest, totals) in StatusList(users, latest, totals) {
      var k :| 0 <= k < |users| && users[k].user.role != Admin && StatusRow(a, latest, totals) == StatusRow(users[k], latest, totals);
    }
  }

  /** No admin is ever listed. */
  lemma StatusListNoAdmin(users: seq<Account>, latest: map<UserId, int>, totals: map<UserId, nat>, s: UserStatus)
    requires s in StatusList(users, latest, totals)
    ensures s.role != Admin
  {
    StatusListMembers(users, latest, totals, s);
  }

  // ------------------------------------------------------------------
  // The draw table
  // ------------------------------------------------------------------

  /** A user `realizar_sorteio` may pick: not an admin, and never drawn. */
  predicate Available(a: Account, draws: seq<Draw>)
  {
    a.user.role != Admin && !HasDraw(draws, a.id)
  }

  /** `usuarios_ja_sorteados_ids`, as a set. */
  function DrawnIds(draws: seq<Draw>): set<UserId>
  {
    set d | d in draws :: d.usuario
  }

  /** The filter `realizar_sorteio` applies: not an admin, and not among the drawn ids. */
  predicate Pickable(drawn: set<UserId>, a: Account)
  {
    a.user.role != Admin && a.id !in drawn
  }

  lemma AvailableNotDrawn(draws: seq<Draw>, a: Account)
    ensures Available(a, draws) <==> Pickable(DrawnIds(draws), a)
  {
    if a.id in DrawnIds(draws) {
      var d :| d in draws && d.usuario == a.id;
      var k :| 0 <= k < |draws| && draws[k] == d;
    }
  }

  /** Whether `u` was drawn on the day of `now` (`data_sorteio__date=hoje`). */
  predicate DrawnOnDay(draws: seq<Draw>, u: UserId, now: int)
  {
    exists k :: 0 <= k < |draws| && draws[k].usuario == u && draws[k].dataSorteio / DaySeconds == now / DaySeconds
  }

  class DrawTable {
    var draws: seq<Draw>

    constructor()
      ensures draws == []
    {
      draws := [];
    }

    /** `users_status`: builds the two aggregate maps, then one entry per non-admin account. */
    method UsersStatus(users: seq<Account>) returns (result: seq<UserStatus>)
      ensures result == StatusList(users, LatestMap(draws), TotalsMap(draws))
    {
      var latest: map<UserId, int> := map[];
      var totals: map<UserId, nat> := map[];
      var k := 0;
      while k < |draws|
        invariant 0 <= k <= |draws|
        invariant latest == LatestMap(draws[..k]) && totals == TotalsMap(draws[..k])
      {
        var x := draws[k];
        assert draws[..k + 1][..k] == draws[..k];
        if x.usuario !in latest || latest[x.usuario] < x.dataSorteio {
          latest := latest[x.usuario := x.dataSorteio];
        } else {
          latest := latest[x.usuario := latest[x.usuario]];
        }
        totals := totals[x.usuario := (if x.usuario in totals then totals[x.usuario] else 0) + 1];
        k := k + 1;
      }
      assert draws[..|draws|] == draws;
      result := [];
      var i := 0;
      while i < |users|
        invariant 0 <= i <= |users|
        invariant result == StatusList(users[..i], latest, totals)
      {
        assert users[..i + 1][..i] == users[..i];
        if users[i].user.role != Admin {
          result := result + [StatusRow(users[i], latest, totals)];
        }
        i := i + 1;
      }
      assert users[..|users|] == users;
    }

    /**
     * `realizar_sorteio`: 403 for a role below gestor; 400 with the counts
     * when every non-admin user has been drawn; otherwise some available
     * user, chosen freely, gets a non-manual draw by the requester now.
     */
    method RealizarSorteio(role: Role, requester: UserId, users: seq<Account>, now: int)
      returns (status: int, totalUsuarios: nat, usuariosSorteados: nat)
      modifies this
      ensures !IsGestor(role) ==> status == 403 && draws == old(draws)
      ensures IsGestor(role) ==>
                totalUsuarios == Count(users, (a: Account) => a.user.role != Admin)
                && usuariosSorteados == |DrawnIds(old(draws))|
      ensures IsGestor(role) && (forall a :: a in users ==> !Available(a, old(draws))) ==>
                status == 400 && draws == old(draws)
      ensures IsGestor(role) && (exists a :: a in users && Available(a, old(draws))) ==>
                status == 201 && |draws| == |old(draws)| + 1 && draws[..|old(draws)|] == old(draws)
                && (exists a :: a in users && Available(a, old(draws))
                                && draws[|old(draws)|] == Draw(a.id, Some(requester), now, false, None))
    {
      if !IsGestor(role) {
        return 403, 0, 0;
      }
      var drawn := DrawnIds(draws);
      usuariosSorteados := |drawn|;
      totalUsuarios := Count(users, (a: Account) => a.user.role != Admin);
      var lista := FilterSeq(users, (a: Account) => Pickable(drawn, a));
      if |lista| == 0 {
        forall a | a in users
          ensures !Available(a, draws)
        {
          AvailableNotDrawn(draws, a);
          assert !(a in lista);
        }
        return 400, totalUsuarios, usuariosSorteados;
      }
      var i :| 0 <= i < |lista|;
      var escolhido := lista[i];
      assert escolhido in lista;
      AvailableNotDrawn(draws, escolhido);
      draws := draws + [Draw(escolhido.id, Some(requester), now, false, None)];
      status := 201;
    }

    /**
     * `marcar_como_sorteado`: 403 below gestor, 400 without an id, 404
     * for an unknown user, 400 when that user was drawn today; otherwise
     * one manual draw by the requester now.
     */
    method MarcarComoSorteado(role: Role, requester: UserId, users: seq<Account>, usuarioId: Option<UserId>,
                              observacoes: string, now: int)
      returns (status: int, detail: string)
      modifies this
      ensures status != 201 ==> draws == old(draws)
      ensures !IsGestor(role) ==> status == 403 && detail == "Apenas gestores podem marcar usuários como sorteados."
      ensures IsGestor(role) && usuarioId.None? ==> status == 400 && detail == "usuario_id é obrigatório."
      ensures IsGestor(role) && usuarioId.Some? && FindAccount(users, usuarioId.value).None? ==>
                status == 404 && detail == "Usuário não encontrado."
      ensures IsGestor(role) && usuarioId.Some? && FindAccount(users, usuarioId.value).Some?
              && DrawnOnDay(old(draws), usuarioId.value, now) ==>
                status == 400 && detail == "Este usuário já foi sorteado hoje."
      ensures IsGestor(role) && usuarioId.Some? && FindAccount(users, usuarioId.value).Some?
              && !DrawnOnDay(old(draws), usuarioId.value, now) ==>
                status == 201 && draws == old(draws) + [Draw(usuarioId.value, Some(requester), now, true, Some(observacoes))]
    {
      if !IsGestor(role) {
        return 403, "Apenas gestores podem marcar usuários como sorteados.";
      }
      if usuarioId.None? {
        return 400, "usuario_id é obrigatório.";
      }
      var usuario := FindAccount(users, usuarioId.value);
      if usuario.None? {
        return 404, "Usuário não encontrado.";
      }
      var hoje := now / DaySeconds;
      var k := 0;
      while k < |draws|
        invariant 0 <= k <= |draws|
        invariant forall j :: 0 <= j < k ==> !(draws[j].usuario == usuarioId.value && draws[j].dataSorteio / DaySeconds == hoje)
      {
        if draws[k].usuario == usuarioId.value && draws[k].dataSorteio / DaySeconds == hoje {
          return 400, "Este usuário já foi sorteado hoje.";
        }
        k := k + 1;
      }
      draws := draws + [Draw(usuarioId.value, Some(requester), now, true, Some(observacoes))];
      status, detail := 201, "";
    }

    /** The index of one of `u`'s latest draws (`order_by('-data_sorteio').first()`), if any. */
    method LatestDrawOf(u: UserId) returns (best: Option<nat>)
      ensures best.None? <==> !HasDraw(draws, u)
      ensures best.Some? ==> IsLatestOf(draws, u, best.value)
    {
      best := None;
      var k := 0;
      while k < |draws|
        invariant 0 <= k <= |draws|
        invariant best.None? ==> forall j :: 0 <= j < k ==> draws[j].usuario != u
        invariant best.Some? ==> IsLatestOf(draws[..k], u, best.value)
      {
        if draws[k].usuario == u && (best.None? || draws[best.value].dataSorteio < draws[k].dataSorteio) {
          best := Some(k);
        }
        k := k + 1;
      }
      assert draws[..|draws|] == draws;
    }

    /**
     * `desmarcar_como_sorteado`: 403 below gestor, 400 without an id, 404
     * for an unknown user, 400 when the user has no draw; otherwise one of
     * their latest draws, and only it, is deleted.
     */
    method DesmarcarComoSorteado(role: Role, users: seq<Account>, usuarioId: Option<UserId>)
      returns (status: int, detail: string)
      modifies this
      ensures status != 200 ==> draws == old(draws)
      ensures !IsGestor(role) ==> status == 403 && detail == "Apenas gestores podem desmarcar usuários como sorteados."
      ensures IsGestor(role) && usuarioId.None? ==> status == 400 && detail == "usuario_id é obrigatório."
      ensures IsGestor(role) && usuarioId.Some? && FindAccount(users, usuarioId.value).None? ==>
                status == 404 && detail == "Usuário não encontrado."
      ensures IsGestor(role) && usuarioId.Some? && FindAccount(users, usuarioId.value).Some?
              && !HasDraw(old(draws), usuarioId.value) ==>
                status == 400 && detail == "Este usuário não possui sorteios para remover."
      ensures IsGestor(role) && usuarioId.Some? && FindAccount(users, usuarioId.value).Some?
              && HasDraw(old(draws), usuarioId.value) ==>
                status == 200
                && detail == "Sorteio de " + FormatUserName(FindAccount(users, usuarioId.value)).value + " removido com sucesso."
                && exists k :: IsLatestOf(old(draws), usuarioId.value, k) && draws == old(draws)[..k] + old(draws)[k + 1..]
    {
      if !IsGestor(role) {
        return 403, "Apenas gestores podem desmarcar usuários como sorteados.";
      }
      if usuarioId.None? {
        return 400, "usuario_id é obrigatório.";
      }
      var usuario := FindAccount(users, usuarioId.value);
      if usuario.None? {
        return 404, "Usuário não encontrado.";
      }
      var ultimo := LatestDrawOf(usuarioId.value);
      if ultimo.None? {
        return 400, "Este usuário não possui sorteios para remover.";
      }
      draws := draws[..ultimo.value] + draws[ultimo.value + 1..];
      status := 200;
      detail := "Sorteio de " + FormatUserName(usuario).value + " removido com sucesso.";
    }

    /** `resetar_sorteios`: 403 below gestor; otherwise every draw is deleted and counted. */
    method ResetarSorteios(role: Role) returns (status: int, count: nat)
      modifies this
      ensures !IsGestor(role) ==> status == 403 && draws == old(draws)
      ensures IsGestor(role) ==> status == 200 && count == |old(draws)| && draws == []
    {
      if !IsGestor(role) {
        return 403, 0;
      }
      count := |draws|;
      draws := [];
      status := 200;
    }
  }

  /** Removing one of `u`'s draws lowers their count by one and leaves everyone else's alone. */
  lemma {:induction false} RemovalCount(draws: seq<Draw>, k: nat, v: UserId)
    requires k < |draws|
    ensures DrawCount(draws[..k] + draws[k + 1..], v) + (if draws[k].usuario == v then 1 else 0) == DrawCount(draws, v)
    decreases |draws|
  {
    var n := |draws|;
    if k == n - 1 {
      assert draws[..k] + draws[k + 1..] == draws[..n - 1];
    } else {
      var init := draws[..n - 1];
      RemovalCount(init, k, v);
      assert draws[..k] + draws[k + 1..] == (init[..k] + init[k + 1..]) + [draws[n - 1]];
    }
  }

  /** A new draw by `realizar_sorteio` or `marcar` makes its user show as drawn. */
  lemma AppendedDrawShows(draws: seq<Draw>, d: Draw)
    ensures HasDraw(draws + [d], d.usuario)
    ensures DrawCount(draws + [d], d.usuario) == DrawCount(draws, d.usuario) + 1
  {
    assert (draws + [d])[|draws|] == d;
    assert (draws + [d])[..|draws|] == draws;
  }

  /** After a reset no one shows as drawn, so every non-admin user is available again. */
  lemma ResetFreesEveryone(users: seq<Account>, a: Account)
    requires a in users && a.user.role != Admin
    ensures Available(a, [])
    ensures StatusRow(a, LatestMap([]), TotalsMap([])) in StatusList(users, LatestMap([]), TotalsMap([]))
    ensures !StatusRow(a, LatestMap([]), TotalsMap([])).jaSorteado
  {
    UsersStatusMeaning(users, [], a);
  }
}
