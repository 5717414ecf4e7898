/**
 * The periodic jobs of backend/apps/projects/tasks.py that do not roll
 * sprints over: the per-minute deadline scan `check_card_deadlines` and the
 * Friday auto-close `verificar_fechamento_automatico_semana`.
 * (`finalizar_sprints_por_data` is `Rollover.Store.FinalizarSprintsPorData`.)
 *
 * Instants are whole seconds since 1970-01-01T00:00 UTC, the zone the
 * backend keeps its clock in; a card's id is its position in the card
 * table.
 */
module Tasks {
  import opened Common
  import opened Calendar
  import opened Models
  import opened NotificationUtils

  // ------------------------------------------------------------------
  // check_card_deadlines
  // ------------------------------------------------------------------

  /** The four alert windows of the scan, and "no alert". */
  datatype Bucket = Overdue | Due24h | Due1h | Due10min | NoAlert

  const Minute := 60
  const Hour := 3600

  /**
   * The `if`/`elif` chain of the scan: overdue when the delivery instant
   * has passed, else the first of the three windows on the remaining time
   * (ends included) that contains it.
   */
  function BucketOf(dataFim: int, now: int): Bucket
  {
    var remaining := dataFim - now;
    if dataFim < now then Overdue
    else if 23 * Hour + 50 * Minute <= remaining <= 24 * Hour + 10 * Minute then Due24h
    else if 50 * Minute <= remaining <= Hour + 10 * Minute then Due1h
    else if 5 * Minute <= remaining <= 15 * Minute then Due10min
    else NoAlert
  }

  /**
   * The windows are pairwise disjoint, so each bucket is characterised by
   * its own window alone, whatever the order of the chain.
   */
  lemma BucketWindows(dataFim: int, now: int)
    ensures BucketOf(dataFim, now) == Overdue <==> dataFim < now
    ensures BucketOf(dataFim, now) == Due24h <==> 85800 <= dataFim - now <= 87000
    ensures BucketOf(dataFim, now) == Due1h <==> 3000 <= dataFim - now <= 4200
    ensures BucketOf(dataFim, now) == Due10min <==> 300 <= dataFim - now <= 900
    ensures BucketOf(dataFim, now) == NoAlert <==>
              0 <= dataFim - now && !(85800 <= dataFim - now <= 87000)
              && !(3000 <= dataFim - now <= 4200) && !(300 <= dataFim - now <= 900)
  {
  }

  function BucketType(b: Bucket): NotificationType
    requires b != NoAlert
  {
    match b
    case Overdue => CardOverdue
    case Due24h => CardDue24h
    case Due1h => CardDue1h
    case Due10min => CardDue10min
  }

  function BucketTitle(b: Bucket): string
    requires b != NoAlert
  {
    match b
    case Overdue => "Card Atrasado"
    case Due24h => "Card Vence em 24 Horas"
    case Due1h => "Card Vence em 1 Hora"
    case Due10min => "Card Vence em 10 Minutos"
  }

  function BucketPhrase(b: Bucket): string
    requires b != NoAlert
  {
    match b
    case Overdue => "está atrasado"
    case Due24h => "vence em 24 horas"
    case Due1h => "vence em 1 hora"
    case Due10min => "vence em 10 minutos"
  }

  /** The scan's query: a delivery instant is set and the card is neither finished nor abandoned. */
  predicate Watched(c: Card)
  {
    c.dataFim.Some? && !IsClosed(c.status)
  }

  /** The responsible user, then the project manager, each when set; no de-duplication. */
  function Recipients(c: Card, projects: seq<Project>): (r: seq<UserId>)
    requires c.projeto < |projects|
    ensures |r| <= 2
  {
    Assignees(c, projects[c.projeto])
  }

  /** The alert `send_notification` receives for card `i` in bucket `b`. */
  function AlertMessage(fmt: Formats, cards: seq<Card>, projects: seq<Project>, i: nat, b: Bucket): (m: Message)
    requires i < |cards| && CardsValid(cards, projects) && Watched(cards[i]) && b != NoAlert
    ensures m.tipo == BucketType(b) && m.cardId == Some(i)
  {
    var c := cards[i];
    var fim := c.dataFim.value;
    Message(BucketType(b), BucketTitle(b),
            "O card \"" + c.nome + "\" " + BucketPhrase(b) + ". Data de entrega: " + fmt.dayMonthYearTime(fim),
            Some(i), None, Some(c.projeto),
            Some(map["card_nome" := JStr(c.nome), "project_nome" := JStr(projects[c.projeto].nome),
                     "data_fim" := JStr(fmt.isoformat(fim))]))
  }

  /** Two hours of de-duplication: a row of that card and type created at or after `now - 2h`. */
  predicate RecentlySent(rows: seq<Notification>, i: nat, tipo: NotificationType, now: int)
  {
    exists k :: 0 <= k < |rows| && rows[k].cardId == Some(i) && rows[k].tipo == tipo
                && rows[k].dataCriacao >= now - 2 * Hour
  }

  /** Whether the scan alerts about card `i`, judged against the rows `rows`. */
  predicate Alerts(rows: seq<Notification>, cards: seq<Card>, i: nat, now: int)
    requires i < |cards|
  {
    Watched(cards[i]) && BucketOf(cards[i].dataFim.value, now) != NoAlert
    && !RecentlySent(rows, i, BucketType(BucketOf(cards[i].dataFim.value, now)), now)
  }

  /** The rows the scan adds for card `i` when it alerts. */
  function CardAlerts(fmt: Formats, users: set<UserId>, cards: seq<Card>, projects: seq<Project>, i: nat, now: int)
    : seq<Notification>
    requires i < |cards| && CardsValid(cards, projects) && Watched(cards[i])
    requires BucketOf(cards[i].dataFim.value, now) != NoAlert
  {
    var b := BucketOf(cards[i].dataFim.value, now);
    Sent(users, Recipients(cards[i], projects), AlertMessage(fmt, cards, projects, i, b), now)
  }

  /**
   * The rows the scan adds after its first `n` cards, each card's
   * de-duplication judged against the table as it stands when it is
   * reached.
   */
  function ScanAlerts(fmt: Formats, users: set<UserId>, rows: seq<Notification>, cards: seq<Card>,
                      projects: seq<Project>, now: int, n: nat): seq<Notification>
    requires n <= |cards| && CardsValid(cards, projects)
  {
    if n == 0 then []
    else
      var prev := ScanAlerts(fmt, users, rows, cards, projects, now, n - 1);
      if Alerts(rows + prev, cards, n - 1, now) then prev + CardAlerts(fmt, users, cards, projects, n - 1, now)
      else prev
  }

  /** One card's step of the scan, unfolded. */
  lemma ScanAlertsStep(fmt: Formats, users: set<UserId>, rows: seq<Notification>, cards: seq<Card>,
                       projects: seq<Project>, now: int, i: nat)
    requires i < |cards| && CardsValid(cards, projects)
    ensures ScanAlerts(fmt, users, rows, cards, projects, now, i + 1)
            == ScanAlerts(fmt, users, rows, cards, projects, now, i)
               + if Alerts(rows + ScanAlerts(fmt, users, rows, cards, projects, now, i), cards, i, now)
                 then CardAlerts(fmt, users, cards, projects, i, now) else []
  {
  }

  /** The rows addressed about card `i`. */
  function AboutCard(ns: seq<Notification>, i: nat): seq<Notification>
  {
    if |ns| == 0 then []
    else AboutCard(ns[..|ns| - 1], i) + (if ns[|ns| - 1].cardId == Some(i) then [ns[|ns| - 1]] else [])
  }

  lemma {:induction false} AboutCardConcat(a: seq<Notification>, b: seq<Notification>, i: nat)
    ensures AboutCard(a + b, i) == AboutCard(a, i) + AboutCard(b, i)
    decreases |b|
  {
    if |b| > 0 {
      assert (a + b)[..|a + b| - 1] == a + b[..|b| - 1];
      AboutCardConcat(a, b[..|b| - 1], i);
    } else {
      assert a + b == a;
    }
  }

  lemma {:induction false} AboutCardAll(ns: seq<Notification>, i: nat)
    requires forall k :: 0 <= k < |ns| ==> ns[k].cardId == Some(i)
    ensures AboutCard(ns, i) == ns
  {
    if |ns| > 0 {
      AboutCardAll(ns[..|ns| - 1], i);
    }
  }

  lemma {:induction false} AboutCardNone(ns: seq<Notification>, i: nat)
    requires forall k :: 0 <= k < |ns| ==> ns[k].cardId != Some(i)
    ensures AboutCard(ns, i) == []
  {
    if |ns| > 0 {
      AboutCardNone(ns[..|ns| - 1], i);
    }
  }

  lemma CardAlertsAbout(fmt: Formats, users: set<UserId>, cards: seq<Card>, projects: seq<Project>, i: nat, now: int)
    requires i < |cards| && CardsValid(cards, projects) && Watched(cards[i])
    requires BucketOf(cards[i].dataFim.value, now) != NoAlert
    ensures forall k :: 0 <= k < |CardAlerts(fmt, users, cards, projects, i, now)| ==>
              CardAlerts(fmt, users, cards, projects, i, now)[k].cardId == Some(i)
              && CardAlerts(fmt, users, cards, projects, i, now)[k].tipo == BucketType(BucketOf(cards[i].dataFim.value, now))
  {
    var b := BucketOf(cards[i].dataFim.value, now);
    SentShape(users, Recipients(cards[i], projects), AlertMessage(fmt, cards, projects, i, b), now);
  }

  /** A row about one of the first `n` cards, which is watched, in a window, and of that window's type. */
  predicate AboutScanned(a: Notification, cards: seq<Card>, now: int, n: nat)
  {
    a.cardId.Some? && a.cardId.value < n && a.cardId.value < |cards| && Watched(cards[a.cardId.value])
    && BucketOf(cards[a.cardId.value].dataFim.value, now) != NoAlert
    && a.tipo == BucketType(BucketOf(cards[a.cardId.value].dataFim.value, now))
  }

  /** Every row the scan adds is about one of the cards already scanned, of that card's type. */
  lemma {:induction false} ScanAlertsCards(fmt: Formats, users: set<UserId>, rows: seq<Notification>, cards: seq<Card>,
                                           projects: seq<Project>, now: int, n: nat)
    requires n <= |cards| && CardsValid(cards, projects)
    ensures forall k :: 0 <= k < |ScanAlerts(fmt, users, rows, cards, projects, now, n)| ==>
              AboutScanned(ScanAlerts(fmt, users, rows, cards, projects, now, n)[k], cards, now, n)
  {
    if n > 0 {
      ScanAlertsCards(fmt, users, rows, cards, projects, now, n - 1);
      var prev := ScanAlerts(fmt, users, rows, cards, projects, now, n - 1);
      var added := if Alerts(rows + prev, cards, n - 1, now) then CardAlerts(fmt, users, cards, projects, n - 1, now) else [];
      ScanAlertsStep(fmt, users, rows, cards, projects, now, n - 1);
      if Alerts(rows + prev, cards, n - 1, now) {
        CardAlertsAbout(fmt, users, cards, projects, n - 1, now);
      }
      ScannedConcat(prev, added, cards, now, n);
    }
  }

  /** Rows about the first `n - 1` cards followed by rows about the first `n` are all about the first `n`. */
  lemma ScannedConcat(prev: seq<Notification>, added: seq<Notification>, cards: seq<Card>, now: int, n: nat)
    requires n > 0
    requires forall k :: 0 <= k < |prev| ==> AboutScanned(prev[k], cards, now, n - 1)
    requires forall k :: 0 <= k < |added| ==> AboutScanned(added[k], cards, now, n)
    ensures forall k :: 0 <= k < |prev + added| ==> AboutScanned((prev + added)[k], cards, now, n)
  {
    forall k | 0 <= k < |prev + added|
      ensures AboutScanned((prev + added)[k], cards, now, n)
    {
      if k < |prev| {
        assert (prev + added)[k] == prev[k];
      } else {
        assert (prev + added)[k] == added[k - |prev|];
      }
    }
  }

  /**
   * Rows added earlier in the same scan are about other cards, so a card's
   * de-duplication only ever sees rows that existed before the scan.
   */
  lemma RecentlySentIgnoresScan(fmt: Formats, users: set<UserId>, rows: seq<Notification>, cards: seq<Card>,
                                projects: seq<Project>, now: int, i: nat, tipo: NotificationType)
    requires i < |cards| && CardsValid(cards, projects)
    ensures RecentlySent(rows + ScanAlerts(fmt, users, rows, cards, projects, now, i), i, tipo, now)
            == RecentlySent(rows, i, tipo, now)
  {
    var prev := ScanAlerts(fmt, users, rows, cards, projects, now, i);
    ScanAlertsCards(fmt, users, rows, cards, projects, now, i);
    var all := rows + prev;
    forall k | |rows| <= k < |all|
      ensures all[k].cardId != Some(i)
    {
      assert all[k] == prev[k - |rows|];
    }
    if RecentlySent(all, i, tipo, now) {
      var k :| 0 <= k < |all| && all[k].cardId == Some(i) && all[k].tipo == tipo
               && all[k].dataCriacao >= now - 2 * Hour;
      assert rows[k] == all[k];
    }
    if RecentlySent(rows, i, tipo, now) {
      var k :| 0 <= k < |rows| && rows[k].cardId == Some(i) && rows[k].tipo == tipo
               && rows[k].dataCriacao >= now - 2 * Hour;
      assert all[k] == rows[k];
    }
  }

  /**
   * What the scan sends about card `i`: nothing unless the card is watched,
   * falls in one of the four windows and has no row of that type from the
   * last two hours; otherwise the alert of its window to its recipients.
   */
  lemma {:induction false} ScanAlertsAbout(fmt: Formats, users: set<UserId>, rows: seq<Notification>, cards: seq<Card>,
                                           projects: seq<Project>, now: int, n: nat, i: nat)
    requires n <= |cards| && CardsValid(cards, projects) && i < |cards|
    ensures AboutCard(ScanAlerts(fmt, users, rows, cards, projects, now, n), i)
            == ExpectedAbout(fmt, users, rows, cards, projects, now, n, i)
  {
    if n > 0 {
      ScanAlertsAbout(fmt, users, rows, cards, projects, now, n - 1, i);
      ScanAboutStep(fmt, users, rows, cards, projects, now, n - 1, i);
    }
  }

  /** What the first `n` cards of the scan send about card `i`, judged against the rows before the scan. */
  function ExpectedAbout(fmt: Formats, users: set<UserId>, rows: seq<Notification>, cards: seq<Card>,
                         projects: seq<Project>, now: int, n: nat, i: nat): seq<Notification>
    requires CardsValid(cards, projects) && i < |cards|
  {
    if i < n && Alerts(rows, cards, i, now) then CardAlerts(fmt, users, cards, projects, i, now) else []
  }

  /** Whether card `j` alerts does not depend on the rows the scan added before it. */
  lemma AlertsIgnoreScan(fmt: Formats, users: set<UserId>, rows: seq<Notification>, cards: seq<Card>,
                         projects: seq<Project>, now: int, j: nat)
    requires j < |cards| && CardsValid(cards, projects)
    ensures Alerts(rows + ScanAlerts(fmt, users, rows, cards, projects, now, j), cards, j, now)
            == Alerts(rows, cards, j, now)
  {
    if Watched(cards[j]) && BucketOf(cards[j].dataFim.value, now) != NoAlert {
      RecentlySentIgnoresScan(fmt, users, rows, cards, projects, now, j, BucketType(BucketOf(cards[j].dataFim.value, now)));
    }
  }

  /** One card's step of `ScanAlertsAbout`. */
  lemma ScanAboutStep(fmt: Formats, users: set<UserId>, rows: seq<Notification>, cards: seq<Card>,
                      projects: seq<Project>, now: int, j: nat, i: nat)
    requires j < |cards| && CardsValid(cards, projects) && i < |cards|
    requires AboutCard(ScanAlerts(fmt, users, rows, cards, projects, now, j), i)
             == ExpectedAbout(fmt, users, rows, cards, projects, now, j, i)
    ensures AboutCard(ScanAlerts(fmt, users, rows, cards, projects, now, j + 1), i)
            == ExpectedAbout(fmt, users, rows, cards, projects, now, j + 1, i)
  {
    AlertsIgnoreScan(fmt, users, rows, cards, projects, now, j);
    ScanAlertsStep(fmt, users, rows, cards, projects, now, j);
    if Alerts(rows, cards, j, now) {
      ScanAboutAlerting(fmt, users, rows, cards, projects, now, j, i);
    } else {
      assert ScanAlerts(fmt, users, rows, cards, projects, now, j + 1) == ScanAlerts(fmt, users, rows, cards, projects, now, j);
    }
  }

  /** The step of `ScanAlertsAbout` at a card that alerts. */
  lemma ScanAboutAlerting(fmt: Formats, users: set<UserId>, rows: seq<Notification>, cards: seq<Card>,
                          projects: seq<Project>, now: int, j: nat, i: nat)
    requires j < |cards| && CardsValid(cards, projects) && i < |cards| && Alerts(rows, cards, j, now)
    requires AboutCard(ScanAlerts(fmt, users, rows, cards, projects, now, j), i)
             == ExpectedAbout(fmt, users, rows, cards, projects, now, j, i)
    ensures AboutCard(ScanAlerts(fmt, users, rows, cards, projects, now, j)
                        + CardAlerts(fmt, users, cards, projects, j, now), i)
            == ExpectedAbout(fmt, users, rows, cards, projects, now, j + 1, i)
  {
    var prev := ScanAlerts(fmt, users, rows, cards, projects, now, j);
    var added := CardAlerts(fmt, users, cards, projects, j, now);
    CardAlertsAbout(fmt, users, cards, projects, j, now);
    AboutCardConcat(prev, added, i);
    if i == j {
      AboutCardAll(added, i);
      ScanAlertsCards(fmt, users, rows, cards, projects, now, j);
      AboutCardNone(prev, i);
    } else {
      AboutCardNone(added, i);
    }
  }

  /**
   * A user who is both the responsible and the project manager of an alerted
   * card receives the alert twice.
   */
  lemma DoubleAlert(fmt: Formats, users: set<UserId>, cards: seq<Card>, projects: seq<Project>, i: nat, now: int, u: UserId)
    requires i < |cards| && CardsValid(cards, projects) && Watched(cards[i])
    requires BucketOf(cards[i].dataFim.value, now) != NoAlert
    requires cards[i].responsavel == Some(u) && projects[cards[i].projeto].gerente == Some(u) && u in users
    ensures CountFor(CardAlerts(fmt, users, cards, projects, i, now), u) == 2
  {
    var b := BucketOf(cards[i].dataFim.value, now);
    var ids := Recipients(cards[i], projects);
    assert ids == [u, u];
    assert ids[..1] == [u] && [u][..0] == [];
    assert Occurrences([u], u) == 1;
    assert Occurrences(ids, u) == 2;
    SentCount(users, ids, AlertMessage(fmt, cards, projects, i, b), now, u);
  }

  /** How many cards the scan's query returns. */
  function WatchedCount(cards: seq<Card>): (n: nat)
    ensures n <= |cards|
  {
    if |cards| == 0 then 0
    else WatchedCount(cards[..|cards| - 1]) + (if Watched(cards[|cards| - 1]) then 1 else 0)
  }

  /** The watched count grows by one exactly at a watched card. */
  lemma WatchedCountStep(cards: seq<Card>, i: nat)
    requires i < |cards|
    ensures WatchedCount(cards[..i + 1]) == WatchedCount(cards[..i]) + if Watched(cards[i]) then 1 else 0
  {
    assert cards[..i + 1][..i] == cards[..i];
  }

  /** The table after scanning card `i` is the table before the scan plus the first `i + 1` cards' alerts. */
  lemma ScanRowsStep(fmt: Formats, users: set<UserId>, rows0: seq<Notification>, cards: seq<Card>,
                     projects: seq<Project>, now: int, i: nat, before: seq<Notification>, after: seq<Notification>)
    requires i < |cards| && CardsValid(cards, projects)
    requires before == rows0 + ScanAlerts(fmt, users, rows0, cards, projects, now, i)
    requires after == before + if Alerts(before, cards, i, now) then CardAlerts(fmt, users, cards, projects, i, now) else []
    ensures after == rows0 + ScanAlerts(fmt, users, rows0, cards, projects, now, i + 1)
  {
    var prev := ScanAlerts(fmt, users, rows0, cards, projects, now, i);
    var added := if Alerts(before, cards, i, now) then CardAlerts(fmt, users, cards, projects, i, now) else [];
    ScanAlertsStep(fmt, users, rows0, cards, projects, now, i);
    RowsAssoc(rows0, prev, added);
  }

  lemma RowsAssoc(a: seq<Notification>, b: seq<Notification>, c: seq<Notification>)
    ensures (a + b) + c == a + (b + c)
  {
  }

  /** The scan's work on card `i`: alert unless it is not due or was alerted recently. */
  method ScanCard(fmt: Formats, center: NotificationCenter, cards: seq<Card>, projects: seq<Project>, now: int, i: nat)
    requires center.Valid() && CardsValid(cards, projects) && i < |cards|
    modifies center
    ensures center.Valid() && center.users == old(center.users)
    ensures center.rows == old(center.rows)
                           + if Alerts(old(center.rows), cards, i, now)
                             then CardAlerts(fmt, center.users, cards, projects, i, now) else []
  {
    var c := cards[i];
    if Watched(c) {
      var b := BucketOf(c.dataFim.value, now);
      if b != NoAlert {
        var tipo := BucketType(b);
        var existing := exists k :: 0 <= k < |center.rows| && center.rows[k].cardId == Some(i)
                                    && center.rows[k].tipo == tipo && center.rows[k].dataCriacao >= now - 2 * Hour;
        if !existing {
          var ns := center.SendToMany(Recipients(c, projects), AlertMessage(fmt, cards, projects, i, b), now);
        }
      }
    }
  }

  /**
   * `check_card_deadlines`: for each watched card, the alert of its window
   * unless one of that type was created in the last two hours, sent to the
   * responsible user and the project manager; the result is the number of
   * watched cards.
   */
  method CheckCardDeadlines(fmt: Formats, center: NotificationCenter, cards: seq<Card>, projects: seq<Project>, now: int)
    returns (verificados: nat)
    requires center.Valid() && CardsValid(cards, projects)
    modifies center
    ensures center.Valid() && center.users == old(center.users)
    ensures center.rows == old(center.rows) + ScanAlerts(fmt, old(center.users), old(center.rows), cards, projects, now, |cards|)
    ensures verificados == WatchedCount(cards)
  {
    ghost var rows0 := center.rows;
    var i := 0;
    verificados := 0;
    while i < |cards|
      invariant 0 <= i <= |cards|
      invariant center.Valid() && center.users == old(center.users)
      invariant center.rows == rows0 + ScanAlerts(fmt, center.users, rows0, cards, projects, now, i)
      invariant verificados == WatchedCount(cards[..i])
    {
      WatchedCountStep(cards, i);
      ghost var before := center.rows;
      ScanCard(fmt, center, cards, projects, now, i);
      ScanRowsStep(fmt, center.users, rows0, cards, projects, now, i, before, center.rows);
      if Watched(cards[i]) {
        verificados := verificados + 1;
      }
      i := i + 1;
    }
    assert cards[..i] == cards;
  }

  // ------------------------------------------------------------------
  // verificar_fechamento_automatico_semana
  // ------------------------------------------------------------------

  datatype AutoCloseOutcome = NotFriday | Disabled | AlreadyClosed | ClosedAt(time: int) | Waiting

  /**
   * The Friday auto-close. On any other weekday nothing is read or written.
   * On Friday the configuration row is fetched (created with its defaults
   * when missing) and the week starting on that Monday is closed exactly
   * when automatic closing is on, the week is still open and the time of
   * day has reached the limit.
   */
  method VerificarFechamentoAutomatico(config: PriorityConfig, agora: int) returns (o: AutoCloseOutcome)
    modifies config
    ensures var day := agora / DaySeconds;
      PyWeekday(day) != 4 ==>
        o == NotFriday && config.present == old(config.present)
        && config.semanaFechada == old(config.semanaFechada)
        && config.fechamentoAutomatico == old(config.fechamentoAutomatico)
        && config.horarioLimite == old(config.horarioLimite)
    ensures var day := agora / DaySeconds;
      var auto := if old(config.present) then old(config.fechamentoAutomatico) else true;
      var fechadas := if old(config.present) then old(config.semanaFechada) else map[];
      var limite := if old(config.present) then old(config.horarioLimite) else DefaultHorarioLimite;
      var week := WeekStart(day);
      PyWeekday(day) == 4 ==>
        config.present && config.fechamentoAutomatico == auto && config.horarioLimite == limite
        && (o.ClosedAt? <==> auto && !WeekClosed(fechadas, week) && agora % DaySeconds >= limite)
        && (o.ClosedAt? ==> config.semanaFechada == CloseWeek(fechadas, week) && config.IsSemanaFechada(week))
        && (!o.ClosedAt? ==> config.semanaFechada == fechadas)
        && (!auto ==> o == Disabled)
        && (auto && WeekClosed(fechadas, week) ==> o == AlreadyClosed)
  {
    var day := agora / DaySeconds;
    if PyWeekday(day) != 4 {
      return NotFriday;
    }
    config.GetConfig();
    if !config.fechamentoAutomatico {
      return Disabled;
    }
    var semanaInicio := day - PyWeekday(day);
    if config.IsSemanaFechada(semanaInicio) {
      return AlreadyClosed;
    }
    var horarioAtual := agora % DaySeconds;
    if horarioAtual >= config.horarioLimite {
      config.FecharSemana(semanaInicio);
      return ClosedAt(horarioAtual);
    }
    return Waiting;
  }
}
