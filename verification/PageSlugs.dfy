/**
  Slugs of pages and their history (prisma-page-aggregate.repository.ts). Renaming a
  translation leaves its old slug behind as an alias. Both tables have a unique index on the
  slug alone, over all pages and languages, and a translation is unique per page and language;
  an update is one transaction, so a violated index undoes all of it.
*/
module PageSlugs {
  import opened Common

  datatype PageId = PageId(id: int)
  datatype LanguageId = LanguageId(id: int)
  datatype Slug = Slug(text: string)

  /** Where a slug stands, in either table. */
  datatype Place = Place(page: PageId, language: LanguageId)

  /**
    `translations` by page and language; `aliases` by slug, as their index makes them.
    `held` remembers for the statements below what each place was ever called.
  */
  datatype State = State(
    pages: set<PageId>,
    translations: map<Place, Slug>,
    aliases: map<Slug, Place>,
    held: set<(Place, Slug)>)

  const EMPTY := State({}, map[], map[], {})

  datatype Translation = Translation(language: LanguageId, slug: Slug)

  datatype Outcome = Ok(next: State) | Failed

  // ---------------------------------------------------------------- one translation

  predicate SlugInUse(s: State, slug: Slug, except: Place) {
    exists p :: p in s.translations && p != except && s.translations[p] == slug
  }

  /** The slug is written to `page_translations`. */
  function Written(s: State, p: Place, slug: Slug): Outcome {
    if SlugInUse(s, slug, p) then Failed
    else Ok(s.(translations := s.translations[p := slug], held := s.held + {(p, slug)}))
  }

  /** One round of the loop in `update`: leave an alias behind if the slug changes, then upsert. */
  function Upserted(s: State, page: PageId, t: Translation): Outcome {
    var p := Place(page, t.language);
    if p in s.translations && s.translations[p] != t.slug then
      if s.translations[p] in s.aliases then Failed
      else Written(s.(aliases := s.aliases[s.translations[p] := p]), p, t.slug)
    else Written(s, p, t.slug)
  }

  function UpsertAll(s: State, page: PageId, ts: seq<Translation>): Outcome
    decreases |ts|
  {
    if ts == [] then Ok(s)
    else
      var first := Upserted(s, page, ts[0]);
      if first == Failed then Failed else UpsertAll(first.next, page, ts[1..])
  }

  /** `create` inserts: a second translation for the same language violates the other index. */
  function InsertAll(s: State, page: PageId, ts: seq<Translation>): Outcome
    decreases |ts|
  {
    if ts == [] then Ok(s)
    else if Place(page, ts[0].language) in s.translations then Failed
    else
      var first := Written(s, Place(page, ts[0].language), ts[0].slug);
      if first == Failed then Failed else InsertAll(first.next, page, ts[1..])
  }

  // ---------------------------------------------------------------- operations

  /** Restoring a version is an update with the one translation of its snapshot. */
  datatype Op =
    | Create(page: PageId, translations: seq<Translation>)
    | Update(page: PageId, translations: seq<Translation>)
    | RestoreVersion(page: PageId, snapshot: Translation)
    | HardDelete(page: PageId)

  function Try(s: State, op: Op): Outcome {
    match op
    case Create(page, ts) => InsertAll(s.(pages := s.pages + {page}), page, ts)
    case Update(page, ts) => if page in s.pages then UpsertAll(s, page, ts) else Failed
    case RestoreVersion(page, snapshot) => if page in s.pages then UpsertAll(s, page, [snapshot]) else Failed
    case HardDelete(page) =>
      if page !in s.pages then Failed
      else Ok(State(
        s.pages - {page},
        map p | p in s.translations && p.page != page :: s.translations[p],
        map slug | slug in s.aliases && s.aliases[slug].page != page :: s.aliases[slug],
        s.held))
  }

  function Next(s: State, op: Op): State {
    var outcome := Try(s, op);
    if outcome == Failed then s else outcome.next
  }

  /** Translations first, then aliases; both by slug and language. */
  ghost predicate Finds(s: State, slug: Slug, language: LanguageId, page: Option<PageId>) {
    if exists p :: p in s.translations && s.translations[p] == slug && p.language == language then
      page.Some? && Place(page.value, language) in s.translations && s.translations[Place(page.value, language)] == slug
    else if slug in s.aliases && s.aliases[slug].language == language then
      page == Some(s.aliases[slug].page)
    else page == None
  }

  // ---------------------------------------------------------------- invariant

  ghost predicate Unique(s: State) {
    forall a, b :: a in s.translations && b in s.translations && s.translations[a] == s.translations[b] ==> a == b
  }

  /** What is written anywhere was held there, and a surviving page still has what it ever held. */
  ghost predicate Remembers(s: State) {
    && (forall p :: p in s.translations ==> p.page in s.pages && (p, s.translations[p]) in s.held)
    && (forall slug :: slug in s.aliases ==> s.aliases[slug].page in s.pages && (s.aliases[slug], slug) in s.held)
    && (forall p, slug :: (p, slug) in s.held && p.page in s.pages ==>
          (p in s.translations && s.translations[p] == slug) || (slug in s.aliases && s.aliases[slug] == p))
  }

  ghost predicate Inv(s: State) {
    Unique(s) && Remembers(s)
  }

  lemma WrittenKeeps(s: State, p: Place, slug: Slug)
    requires Inv(s) && p.page in s.pages && !SlugInUse(s, slug, p)
    requires p in s.translations && s.translations[p] != slug ==>
      s.translations[p] in s.aliases && s.aliases[s.translations[p]] == p
    ensures Inv(Written(s, p, slug).next)
  {}

  lemma AliasKeeps(s: State, p: Place)
    requires Inv(s) && p in s.translations && s.translations[p] !in s.aliases
    ensures Inv(s.(aliases := s.aliases[s.translations[p] := p]))
  {}

  lemma UpsertedKeeps(s: State, page: PageId, t: Translation)
    requires Inv(s) && page in s.pages && Upserted(s, page, t).Ok?
    ensures Inv(Upserted(s, page, t).next) && Upserted(s, page, t).next.pages == s.pages
  {
    var p := Place(page, t.language);
    if p in s.translations && s.translations[p] != t.slug {
      AliasKeeps(s, p);
      WrittenKeeps(s.(aliases := s.aliases[s.translations[p] := p]), p, t.slug);
    } else {
      WrittenKeeps(s, p, t.slug);
    }
  }

  lemma {:induction false} UpsertAllKeeps(s: State, page: PageId, ts: seq<Translation>)
    requires Inv(s) && page in s.pages && UpsertAll(s, page, ts).Ok?
    ensures Inv(UpsertAll(s, page, ts).next)
    decreases |ts|
  {
    if ts != [] {
      UpsertedKeeps(s, page, ts[0]);
      UpsertAllKeeps(Upserted(s, page, ts[0]).next, page, ts[1..]);
    }
  }

  lemma {:induction false} InsertAllKeeps(s: State, page: PageId, ts: seq<Translation>)
    requires Inv(s) && page in s.pages && InsertAll(s, page, ts).Ok?
    ensures Inv(InsertAll(s, page, ts).next)
    decreases |ts|
  {
    if ts != [] {
      WrittenKeeps(s, Place(page, ts[0].language), ts[0].slug);
      InsertAllKeeps(Written(s, Place(page, ts[0].language), ts[0].slug).next, page, ts[1..]);
    }
  }

  /** Page ids come from a sequence and are never given out twice. */
  ghost predicate Possible(s: State, op: Op) {
    op.Create? ==> op.page !in s.pages && forall h :: h in s.held ==> h.0.page != op.page
  }

  lemma NextKeeps(s: State, op: Op)
    requires Inv(s) && Possible(s, op)
    ensures Inv(Next(s, op))
  {
    if Try(s, op).Ok? {
      match op {
        case Create(page, ts) => InsertAllKeeps(s.(pages := s.pages + {page}), page, ts);
        case Update(page, ts) => UpsertAllKeeps(s, page, ts);
        case RestoreVersion(page, snapshot) => UpsertAllKeeps(s, page, [snapshot]);
        case HardDelete(page) => DeleteKeeps(s, page);
      }
    }
  }

  lemma DeleteKeeps(s: State, page: PageId)
    requires Inv(s) && page in s.pages
    ensures Inv(Next(s, HardDelete(page)))
  {}

  // ---------------------------------------------------------------- runs

  ghost predicate ValidRun(s: State, ops: seq<Op>)
    decreases |ops|
  {
    ops != [] ==> Possible(s, ops[0]) && ValidRun(Next(s, ops[0]), ops[1..])
  }

  function Run(s: State, ops: seq<Op>): State
    decreases |ops|
  {
    if ops == [] then s else Run(Next(s, ops[0]), ops[1..])
  }

  lemma {:induction false} RunKeeps(s: State, ops: seq<Op>)
    requires Inv(s) && ValidRun(s, ops)
    ensures Inv(Run(s, ops))
    decreases |ops|
  {
    if ops != [] {
      NextKeeps(s, ops[0]);
      RunKeeps(Next(s, ops[0]), ops[1..]);
    }
  }

  /**
    Over every run of creates, updates, version restores and hard deletes: a slug that a
    surviving page ever had in a language still resolves in that language, and to a page that
    has it now or once had it there.
  */
  lemma OldLinksResolve(ops: seq<Op>, p: Place, slug: Slug, found: Option<PageId>)
    requires ValidRun(EMPTY, ops)
    requires p.page in Run(EMPTY, ops).pages && (p, slug) in Run(EMPTY, ops).held
    requires Finds(Run(EMPTY, ops), slug, p.language, found)
    ensures found.Some? && found.value in Run(EMPTY, ops).pages
    ensures (Place(found.value, p.language), slug) in Run(EMPTY, ops).held
  {
    RunKeeps(EMPTY, ops);
    var s := Run(EMPTY, ops);
    assert (p in s.translations && s.translations[p] == slug) || (slug in s.aliases && s.aliases[slug] == p);
  }

  /** The answer is unique. */
  lemma FindsOne(s: State, slug: Slug, language: LanguageId, a: Option<PageId>, b: Option<PageId>)
    requires Unique(s) && Finds(s, slug, language, a) && Finds(s, slug, language, b)
    ensures a == b
  {
    if exists p :: p in s.translations && s.translations[p] == slug && p.language == language {
      assert Place(a.value, language) == Place(b.value, language);
    }
  }

  // ---------------------------------------------------------------- when a rename is refused

  /**
    An upsert succeeds exactly when no other translation has the new slug and, if the slug
    changes, the old one has never been left before by any page that still exists.
  */
  lemma RenameSucceedsIff(s: State, page: PageId, t: Translation)
    ensures
      var p := Place(page, t.language);
      Upserted(s, page, t).Ok? <==>
        && (forall q :: q in s.translations && q != p ==> s.translations[q] != t.slug)
        && (p in s.translations && s.translations[p] != t.slug ==> s.translations[p] !in s.aliases)
  {
    var p := Place(page, t.language);
    if SlugInUse(s, t.slug, p) {
      var q :| q in s.translations && q != p && s.translations[q] == t.slug;
    } else {
      forall q | q in s.translations && q != p ensures s.translations[q] != t.slug {}
    }
  }

  /** So a page can be renamed and renamed back, but not renamed the same way once more. */
  lemma SecondDepartureFails(s: State, page: PageId, language: LanguageId, other: Slug)
    requires Unique(s) && page in s.pages && Place(page, language) in s.translations
    requires s.translations[Place(page, language)] != other
    requires s.translations[Place(page, language)] !in s.aliases && other !in s.aliases
    requires forall q :: q in s.translations ==> s.translations[q] != other
    ensures
      var here := s.translations[Place(page, language)];
      var there, back := Update(page, [Translation(language, other)]), Update(page, [Translation(language, here)]);
      && Try(s, there).Ok?
      && Try(Next(s, there), back).Ok?
      && Try(Next(Next(s, there), back), there) == Failed
  {
    var p := Place(page, language);
    var here := s.translations[p];
    var s1 := Upserted(s, page, Translation(language, other)).next;
    RenameSucceedsIff(s, page, Translation(language, other));
    UpsertOne(s, page, Translation(language, other));
    RenameSucceedsIff(s1, page, Translation(language, here));
    UpsertOne(s1, page, Translation(language, here));
    var s2 := Upserted(s1, page, Translation(language, here)).next;
    RenameSucceedsIff(s2, page, Translation(language, other));
    UpsertOne(s2, page, Translation(language, other));
  }

  lemma UpsertOne(s: State, page: PageId, t: Translation)
    ensures UpsertAll(s, page, [t]) == Upserted(s, page, t)
  {
    var first := Upserted(s, page, t);
    if first.Ok? {
      assert UpsertAll(first.next, page, []) == Ok(first.next);
      assert [t][1..] == [];
    }
  }

  // ---------------------------------------------------------------- when a whole update is refused

  /** The last of these translations for a language. */
  function LatestSlug(ts: seq<Translation>, language: LanguageId): Option<Slug> {
    if ts == [] then None
    else if ts[|ts| - 1].language == language then Some(ts[|ts| - 1].slug)
    else LatestSlug(ts[..|ts| - 1], language)
  }

  function SlugOf(s: State, q: Place): Option<Slug> {
    if q in s.translations then Some(s.translations[q]) else None
  }

  /** What a place is called once the first `i` translations are written, read off the request and the old state. */
  function SlugAt(s: State, page: PageId, ts: seq<Translation>, i: nat, q: Place): Option<Slug>
    requires i <= |ts|
  {
    if q.page == page && LatestSlug(ts[..i], q.language).Some? then LatestSlug(ts[..i], q.language)
    else SlugOf(s, q)
  }

  /** The `j`-th translation takes this slug away from its place. */
  predicate Leaves(s: State, page: PageId, ts: seq<Translation>, j: nat, slug: Slug)
    requires j < |ts|
  {
    SlugAt(s, page, ts, j, Place(page, ts[j].language)) == Some(slug) && ts[j].slug != slug
  }

  ghost predicate LeftBefore(s: State, page: PageId, ts: seq<Translation>, n: nat, slug: Slug)
    requires n <= |ts|
  {
    exists j :: 0 <= j < n && Leaves(s, page, ts, j, slug)
  }

  /** The `i`-th slug is free by then, and the slug it replaces was left neither before the update nor earlier in it. */
  ghost predicate Fits(s: State, page: PageId, ts: seq<Translation>, i: nat)
    requires i < |ts|
  {
    && (forall q :: q != Place(page, ts[i].language) ==> SlugAt(s, page, ts, i, q) != Some(ts[i].slug))
    && (forall slug :: Leaves(s, page, ts, i, slug) ==> slug !in s.aliases && !LeftBefore(s, page, ts, i, slug))
  }

  lemma {:induction false} UpsertAllSnoc(s: State, page: PageId, ts: seq<Translation>, t: Translation)
    ensures UpsertAll(s, page, ts + [t]) ==
      if UpsertAll(s, page, ts) == Failed then Failed else Upserted(UpsertAll(s, page, ts).next, page, t)
    decreases |ts|
  {
    if ts == [] {
      assert ts + [t] == [t];
      UpsertOne(s, page, t);
    } else {
      assert (ts + [t])[0] == ts[0] && (ts + [t])[1..] == ts[1..] + [t];
      if Upserted(s, page, ts[0]).Ok? {
        UpsertAllSnoc(Upserted(s, page, ts[0]).next, page, ts[1..], t);
      }
    }
  }

  lemma SlugAtNext(s: State, page: PageId, ts: seq<Translation>, i: nat, q: Place)
    requires i < |ts|
    ensures SlugAt(s, page, ts, i + 1, q) ==
      if q == Place(page, ts[i].language) then Some(ts[i].slug) else SlugAt(s, page, ts, i, q)
  {
    assert ts[..i + 1][..i] == ts[..i] && ts[..i + 1][i] == ts[i];
  }

  /** State `t` is what the request and the old state say it is after `n` translations. */
  ghost predicate Reached(s: State, page: PageId, ts: seq<Translation>, n: nat, t: State)
    requires n <= |ts|
  {
    && (forall q :: SlugOf(t, q) == SlugAt(s, page, ts, n, q))
    && (forall slug :: slug in t.aliases <==> slug in s.aliases || LeftBefore(s, page, ts, n, slug))
  }

  lemma UpsertedTables(s: State, page: PageId, t: Translation)
    requires Upserted(s, page, t).Ok?
    ensures
      var p, u := Place(page, t.language), Upserted(s, page, t).next;
      && (forall q :: SlugOf(u, q) == if q == p then Some(t.slug) else SlugOf(s, q))
      && (forall slug :: slug in u.aliases <==> slug in s.aliases || (SlugOf(s, p) == Some(slug) && slug != t.slug))
  {}

  lemma ReachedNext(s: State, page: PageId, ts: seq<Translation>, n: nat, t: State)
    requires n < |ts| && Reached(s, page, ts, n, t) && Upserted(t, page, ts[n]).Ok?
    ensures Reached(s, page, ts, n + 1, Upserted(t, page, ts[n]).next)
  {
    hide Upserted;
    hide SlugAt;
    var p, u := Place(page, ts[n].language), Upserted(t, page, ts[n]).next;
    UpsertedTables(t, page, ts[n]);
    forall q ensures SlugOf(u, q) == SlugAt(s, page, ts, n + 1, q) {
      SlugAtNext(s, page, ts, n, q);
    }
    forall slug ensures slug in u.aliases <==> slug in s.aliases || LeftBefore(s, page, ts, n + 1, slug) {
      assert Leaves(s, page, ts, n, slug) <==> SlugOf(t, p) == Some(slug) && slug != ts[n].slug;
      LeftBeforeNext(s, page, ts, n, slug);
    }
  }

  lemma LeftBeforeNext(s: State, page: PageId, ts: seq<Translation>, n: nat, slug: Slug)
    requires n < |ts|
    ensures LeftBefore(s, page, ts, n + 1, slug) <==> LeftBefore(s, page, ts, n, slug) || Leaves(s, page, ts, n, slug)
  {
    hide Leaves;
    if LeftBefore(s, page, ts, n + 1, slug) && !Leaves(s, page, ts, n, slug) {
      var j :| 0 <= j < n + 1 && Leaves(s, page, ts, j, slug);
      assert j < n;
    }
  }

  lemma {:induction false} AfterSome(s: State, page: PageId, ts: seq<Translation>, n: nat)
    requires n <= |ts| && UpsertAll(s, page, ts[..n]).Ok?
    ensures Reached(s, page, ts, n, UpsertAll(s, page, ts[..n]).next)
  {
    if n > 0 {
      assert ts[..n] == ts[..n - 1] + [ts[n - 1]];
      UpsertAllSnoc(s, page, ts[..n - 1], ts[n - 1]);
      AfterSome(s, page, ts, n - 1);
      ReachedNext(s, page, ts, n - 1, UpsertAll(s, page, ts[..n - 1]).next);
    }
  }

  lemma FitsIff(s: State, page: PageId, ts: seq<Translation>, n: nat, t: State)
    requires n < |ts| && Reached(s, page, ts, n, t)
    ensures Upserted(t, page, ts[n]).Ok? <==> Fits(s, page, ts, n)
  {
    hide SlugAt;
    hide Upserted;
    var p, slug := Place(page, ts[n].language), ts[n].slug;
    RenameSucceedsIff(t, page, ts[n]);
    assert (forall q :: q in t.translations && q != p ==> t.translations[q] != slug)
      <==> (forall q :: q != p ==> SlugAt(s, page, ts, n, q) != Some(slug)) by {
      assert forall q :: SlugOf(t, q) == SlugAt(s, page, ts, n, q);
      forall q ensures (q in t.translations && t.translations[q] == slug) <==> SlugAt(s, page, ts, n, q) == Some(slug) {
        assert SlugOf(t, q) == SlugAt(s, page, ts, n, q);
      }
    }
    assert SlugOf(t, p) == SlugAt(s, page, ts, n, p);
    if SlugOf(t, p).Some? {
      var here := SlugOf(t, p).value;
      assert here in t.aliases <==> here in s.aliases || LeftBefore(s, page, ts, n, here);
    }
  }

  lemma {:induction false} SucceedsUpTo(s: State, page: PageId, ts: seq<Translation>, n: nat)
    requires n <= |ts|
    ensures UpsertAll(s, page, ts[..n]).Ok? <==> forall i :: 0 <= i < n ==> Fits(s, page, ts, i)
  {
    if n > 0 {
      assert ts[..n] == ts[..n - 1] + [ts[n - 1]];
      UpsertAllSnoc(s, page, ts[..n - 1], ts[n - 1]);
      SucceedsUpTo(s, page, ts, n - 1);
      if UpsertAll(s, page, ts[..n - 1]).Ok? {
        AfterSome(s, page, ts, n - 1);
        FitsIff(s, page, ts, n - 1, UpsertAll(s, page, ts[..n - 1]).next);
      }
    }
  }

  /** A whole update goes through exactly when each of its translations fits in its turn. */
  lemma UpdateSucceedsIff(s: State, page: PageId, ts: seq<Translation>)
    ensures Try(s, Update(page, ts)).Ok? <==> page in s.pages && forall i :: 0 <= i < |ts| ==> Fits(s, page, ts, i)
  {
    SucceedsUpTo(s, page, ts, |ts|);
    assert ts[..|ts|] == ts;
  }

  /** Two languages of a page cannot exchange their slugs in one update, although the result would be in order. */
  lemma SwapFails(s: State, page: PageId, a: Translation, b: Translation)
    requires a.language != b.language
    requires SlugOf(s, Place(page, a.language)) == Some(b.slug) && SlugOf(s, Place(page, b.language)) == Some(a.slug)
    ensures Try(s, Update(page, [a, b])) == Failed
  {
    UpdateSucceedsIff(s, page, [a, b]);
    assert SlugAt(s, page, [a, b], 0, Place(page, b.language)) == Some(a.slug);
    assert !Fits(s, page, [a, b], 0);
  }

  // ---------------------------------------------------------------- what an operation leaves

  /** The translations sent with an operation. */
  function Sent(op: Op): seq<Translation> {
    match op
    case Create(_, ts) => ts
    case Update(_, ts) => ts
    case RestoreVersion(_, snapshot) => [snapshot]
    case HardDelete(_) => []
  }

  lemma {:induction false} InsertedPlaces(s: State, page: PageId, ts: seq<Translation>, q: Place)
    requires InsertAll(s, page, ts).Ok?
    ensures
      var t := InsertAll(s, page, ts).next;
      && SlugOf(t, q) == (if q.page == page && LatestSlug(ts, q.language).Some? then LatestSlug(ts, q.language) else SlugOf(s, q))
      && t.aliases == s.aliases && t.pages == s.pages
      && (SlugOf(s, q).Some? ==> SlugOf(t, q) == SlugOf(s, q))
    decreases |ts|
  {
    if ts != [] {
      var p := Place(page, ts[0].language);
      InsertedPlaces(Written(s, p, ts[0].slug).next, page, ts[1..], q);
      LatestCons(ts, q.language);
    }
  }

  lemma {:induction false} LatestCons(ts: seq<Translation>, language: LanguageId)
    requires ts != []
    ensures LatestSlug(ts, language) ==
      if LatestSlug(ts[1..], language).Some? then LatestSlug(ts[1..], language)
      else if ts[0].language == language then Some(ts[0].slug) else None
    decreases |ts|
  {
    if |ts| > 1 {
      LatestCons(ts[..|ts| - 1], language);
      assert ts[1..][..|ts| - 2] == ts[..|ts| - 1][1..] && ts[1..][|ts| - 2] == ts[|ts| - 1];
    } else {
      assert ts[..0] == [] && ts[1..] == [];
    }
  }

  lemma {:induction false} UpsertedAliases(s: State, page: PageId, ts: seq<Translation>, slug: Slug)
    requires UpsertAll(s, page, ts).Ok?
    ensures
      var t := UpsertAll(s, page, ts).next;
      && t.pages == s.pages
      && (slug in s.aliases ==> slug in t.aliases && t.aliases[slug] == s.aliases[slug])
      && (slug in t.aliases && slug !in s.aliases ==> t.aliases[slug].page == page)
    decreases |ts|
  {
    if ts != [] {
      UpsertedAliases(Upserted(s, page, ts[0]).next, page, ts[1..], slug);
    }
  }

  /** What a place should be called after an operation that sends translations. */
  function PlaceSent(s: State, op: Op, q: Place): Option<Slug> {
    if q.page == op.page && LatestSlug(Sent(op), q.language).Some? then LatestSlug(Sent(op), q.language) else SlugOf(s, q)
  }

  /**
    After an accepted create, update or restore, every place of the page is called what was
    sent last for its language, and as before if nothing was; all other places stay.
  */
  lemma PlaceAfter(s: State, op: Op, q: Place)
    requires Try(s, op).Ok? && (op.Create? ==> op.page !in s.pages)
    ensures !op.HardDelete? ==> SlugOf(Next(s, op), q) == PlaceSent(s, op, q)
    ensures op.HardDelete? ==> SlugOf(Next(s, op), q) == if q.page == op.page then None else SlugOf(s, q)
  {
    match op {
      case Create(page, ts) => InsertedPlaces(s.(pages := s.pages + {page}), page, ts, q);
      case Update(page, ts) => UpdatedPlace(s, page, ts, q);
      case RestoreVersion(page, snapshot) => UpdatedPlace(s, page, [snapshot], q);
      case HardDelete(_) =>
    }
  }

  lemma UpdatedPlace(s: State, page: PageId, ts: seq<Translation>, q: Place)
    requires UpsertAll(s, page, ts).Ok?
    ensures SlugOf(UpsertAll(s, page, ts).next, q) ==
      if q.page == page && LatestSlug(ts, q.language).Some? then LatestSlug(ts, q.language) else SlugOf(s, q)
  {
    assert ts[..|ts|] == ts;
    AfterSome(s, page, ts, |ts|);
    assert SlugOf(UpsertAll(s, page, ts).next, q) == SlugAt(s, page, ts, |ts|, q);
  }

  /** Aliases only come by slugs left in an update, pointing at its page, and go with their page; a refused operation changes nothing. */
  lemma AliasesAfter(s: State, op: Op, slug: Slug)
    requires op.Create? ==> op.page !in s.pages
    ensures Try(s, op) == Failed ==> Next(s, op) == s
    ensures Try(s, op).Ok? && op.HardDelete? ==>
      && (slug in Next(s, op).aliases <==> slug in s.aliases && s.aliases[slug].page != op.page)
      && (slug in Next(s, op).aliases ==> Next(s, op).aliases[slug] == s.aliases[slug])
    ensures Try(s, op).Ok? && op.Create? ==> Next(s, op).aliases == s.aliases
    ensures Try(s, op).Ok? && (op.Update? || op.RestoreVersion?) ==>
      && (slug in Next(s, op).aliases <==> slug in s.aliases || LeftBefore(s, op.page, Sent(op), |Sent(op)|, slug))
      && (slug in s.aliases ==> Next(s, op).aliases[slug] == s.aliases[slug])
      && (slug in Next(s, op).aliases && slug !in s.aliases ==> Next(s, op).aliases[slug].page == op.page)
  {
    if Try(s, op).Ok? {
      match op {
        case Create(page, ts) => InsertedPlaces(s.(pages := s.pages + {page}), page, ts, Place(page, LanguageId(0)));
        case Update(page, ts) => UpdatedAliases(s, page, ts, slug);
        case RestoreVersion(page, snapshot) => UpdatedAliases(s, page, [snapshot], slug);
        case HardDelete(_) =>
      }
    }
  }

  lemma UpdatedAliases(s: State, page: PageId, ts: seq<Translation>, slug: Slug)
    requires UpsertAll(s, page, ts).Ok?
    ensures
      var t := UpsertAll(s, page, ts).next;
      && (slug in t.aliases <==> slug in s.aliases || LeftBefore(s, page, ts, |ts|, slug))
      && (slug in s.aliases ==> t.aliases[slug] == s.aliases[slug])
      && (slug in t.aliases && slug !in s.aliases ==> t.aliases[slug].page == page)
  {
    assert ts[..|ts|] == ts;
    AfterSome(s, page, ts, |ts|);
    UpsertedAliases(s, page, ts, slug);
    assert Reached(s, page, ts, |ts|, UpsertAll(s, page, ts).next);
  }

  /** Which pages there are. */
  lemma PagesAfter(s: State, op: Op)
    requires Try(s, op).Ok?
    ensures op.Create? ==> Next(s, op).pages == s.pages + {op.page}
    ensures op.HardDelete? ==> Next(s, op).pages == s.pages - {op.page}
    ensures op.Update? || op.RestoreVersion? ==> Next(s, op).pages == s.pages
  {
    match op {
      case Create(page, ts) => InsertedPlaces(s.(pages := s.pages + {page}), page, ts, Place(page, LanguageId(0)));
      case Update(page, ts) => UpsertedAliases(s, page, ts, Slug(""));
      case RestoreVersion(page, snapshot) => UpsertedAliases(s, page, [snapshot], Slug(""));
      case HardDelete(_) =>
    }
  }

  // ---------------------------------------------------------------- inputs

  const EN := LanguageId(1)
  const KA := LanguageId(2)
  const A := Slug("a")
  const B := Slug("b")

  /** One page, called `a` in one language and `b` in another; exchanging the two is refused. */
  lemma SwapRefused()
    ensures
      var ops := [Create(PageId(1), [Translation(EN, A), Translation(KA, B)])];
      && ValidRun(EMPTY, ops)
      && Place(PageId(1), EN) in Run(EMPTY, ops).translations
      && Try(Run(EMPTY, ops), Update(PageId(1), [Translation(EN, B), Translation(KA, A)])) == Failed
  {
    var ts := [Translation(EN, A), Translation(KA, B)];
    var ops := [Create(PageId(1), ts)];
    var s := Next(EMPTY, ops[0]);
    assert ops[1..] == [] && Run(EMPTY, ops) == Run(s, []) == s;
    CreatedPair(PageId(1), ts);
    SwapFails(s, PageId(1), Translation(EN, B), Translation(KA, A));
  }

  lemma CreatedPair(page: PageId, ts: seq<Translation>)
    requires |ts| == 2 && ts[0].language != ts[1].language && ts[0].slug != ts[1].slug
    ensures
      var s := Next(EMPTY, Create(page, ts));
      && SlugOf(s, Place(page, ts[0].language)) == Some(ts[0].slug)
      && SlugOf(s, Place(page, ts[1].language)) == Some(ts[1].slug)
  {
    var s0 := EMPTY.(pages := EMPTY.pages + {page});
    var s1 := Written(s0, Place(page, ts[0].language), ts[0].slug).next;
    var s2 := Written(s1, Place(page, ts[1].language), ts[1].slug).next;
    assert ts[1..][1..] == [] && ts[1..][0] == ts[1];
    assert InsertAll(s2, page, []) == Ok(s2);
    assert InsertAll(s1, page, ts[1..]) == InsertAll(s2, page, ts[1..][1..]);
  }

  lemma CreatedOne(page: PageId, t: Translation)
    ensures
      var s := Next(EMPTY, Create(page, [t]));
      s.pages == {page} && s.translations == map[Place(page, t.language) := t.slug] && s.aliases == map[]
  {
    var s0 := EMPTY.(pages := EMPTY.pages + {page});
    var s1 := Written(s0, Place(page, t.language), t.slug).next;
    assert [t][1..] == [];
    assert InsertAll(s1, page, []) == Ok(s1);
  }

  /** A page called `a`, renamed to `b` and back: both go through, and renaming it to `b` again is refused. */
  lemma SecondDepartureRefused()
    ensures
      var there, back := Update(PageId(1), [Translation(EN, B)]), Update(PageId(1), [Translation(EN, A)]);
      var ops := [Create(PageId(1), [Translation(EN, A)]), there, back];
      && ValidRun(EMPTY, ops)
      && Place(PageId(1), EN) in Run(EMPTY, ops).translations && Run(EMPTY, ops).translations[Place(PageId(1), EN)] == A
      && Try(Run(EMPTY, ops), there) == Failed
  {
    var there, back := Update(PageId(1), [Translation(EN, B)]), Update(PageId(1), [Translation(EN, A)]);
    var ops := [Create(PageId(1), [Translation(EN, A)]), there, back];
    CreatedOne(PageId(1), Translation(EN, A));
    var s1 := Next(EMPTY, ops[0]);
    SecondDepartureFails(s1, PageId(1), EN, B);
    var s2 := Next(s1, there);
    var s3 := Next(s2, back);
    assert ops[1..][1..][1..] == [];
    assert Run(s2, ops[1..][1..]) == Run(s3, []) == s3;
    assert Run(EMPTY, ops) == s3;
    UpsertOne(s2, PageId(1), Translation(EN, A));
    assert ValidRun(s2, ops[1..][1..]) && ValidRun(s1, ops[1..]);
  }

  // ---------------------------------------------------------------- the repository

  class PageAggregateRepository {
    var pages: set<PageId>
    var translations: map<Place, Slug>
    var aliases: map<Slug, Place>
    ghost var held: set<(Place, Slug)>

    ghost function Now(): State
      reads this
    {
      State(pages, translations, aliases, held)
    }

    constructor ()
      ensures Now() == EMPTY
    {
      pages, translations, aliases, held := {}, map[], map[], {};
    }

    /** Leaving the transaction early undoes it. */
    method Rollback(ghost s: State, t: map<Place, Slug>, a: map<Slug, Place>)
      requires t == s.translations && a == s.aliases && s.pages == pages
      modifies this
      ensures Now() == s
    {
      translations, aliases, held := t, a, s.held;
    }

    method UpdatePage(page: PageId, ts: seq<Translation>) returns (ok: bool)
      modifies this
      ensures ok == Try(old(Now()), Update(page, ts)).Ok?
      ensures Now() == Next(old(Now()), Update(page, ts))
    {
      if page !in pages {
        return false;
      }
      ghost var before := Now();
      var oldTranslations, oldAliases := translations, aliases;
      for i := 0 to |ts|
        invariant pages == before.pages
        invariant UpsertAll(before, page, ts) == UpsertAll(Now(), page, ts[i..])
      {
        var t := ts[i];
        assert ts[i..][0] == t && ts[i..][1..] == ts[i + 1..];
        var p := Place(page, t.language);
        if p in translations && translations[p] != t.slug {
          if translations[p] in aliases {
            Rollback(before, oldTranslations, oldAliases);
            return false;
          }
          aliases := aliases[translations[p] := p];
        }
        if exists q :: q in translations && q != p && translations[q] == t.slug {
          Rollback(before, oldTranslations, oldAliases);
          return false;
        }
        translations := translations[p := t.slug];
        held := held + {(p, t.slug)};
      }
      ok := true;
    }

    /** The snapshot of a stored version is written back as an ordinary update. */
    method RestorePageVersion(page: PageId, snapshot: Translation) returns (ok: bool)
      modifies this
      ensures ok == Try(old(Now()), RestoreVersion(page, snapshot)).Ok?
      ensures Now() == Next(old(Now()), RestoreVersion(page, snapshot))
    {
      ok := UpdatePage(page, [snapshot]);
    }

    method CreatePage(page: PageId, ts: seq<Translation>) returns (ok: bool)
      requires page !in pages
      modifies this
      ensures ok == Try(old(Now()), Create(page, ts)).Ok?
      ensures Now() == Next(old(Now()), Create(page, ts))
    {
      ghost var before := Now();
      var oldTranslations, oldAliases := translations, aliases;
      pages := pages + {page};
      ghost var started := Now();
      for i := 0 to |ts|
        invariant pages == started.pages
        invariant InsertAll(started, page, ts) == InsertAll(Now(), page, ts[i..])
      {
        var t := ts[i];
        assert ts[i..][0] == t && ts[i..][1..] == ts[i + 1..];
        var p := Place(page, t.language);
        if p in translations || exists q :: q in translations && q != p && translations[q] == t.slug {
          pages := pages - {page};
          assert pages == before.pages;
          Rollback(before, oldTranslations, oldAliases);
          return false;
        }
        translations := translations[p := t.slug];
        held := held + {(p, t.slug)};
      }
      ok := true;
    }

    /** Both tables cascade. */
    method HardDeletePage(page: PageId) returns (ok: bool)
      modifies this
      ensures ok == Try(old(Now()), HardDelete(page)).Ok?
      ensures Now() == Next(old(Now()), HardDelete(page))
    {
      if page !in pages {
        return false;
      }
      pages := pages - {page};
      translations := map p | p in translations && p.page != page :: translations[p];
      aliases := map slug | slug in aliases && aliases[slug].page != page :: aliases[slug];
      ok := true;
    }

    method FindBySlug(slug: Slug, language: LanguageId) returns (page: Option<PageId>)
      ensures Finds(Now(), slug, language, page)
    {
      if exists p :: p in translations && translations[p] == slug && p.language == language {
        var p :| p in translations && translations[p] == slug && p.language == language;
        assert p == Place(p.page, language);
        return Some(p.page);
      }
      if slug in aliases && aliases[slug].language == language {
        return Some(aliases[slug].page);
      }
      page := None;
    }
  }
}
