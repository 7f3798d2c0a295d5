/** Workspaces: slugs and the pair of cache keys each row has. */
module Workspaces {
  import opened Common
  import opened CacheStore
  import Slugs

  type WorkspaceId = string

  datatype Workspace = Workspace(id: WorkspaceId, name: string, slug: string, ownerId: string)

  datatype WorkspaceError = SlugTaken | NotFound | DatabaseFailure

  type Rows = map<WorkspaceId, Workspace>

  function IdKey(id: WorkspaceId): string { "workspace:id:" + id }

  function SlugKey(slug: string): string { "workspace:slug:" + slug }

  lemma KeysAreDistinct(id: WorkspaceId, id': WorkspaceId, slug: string, slug': string)
    ensures IdKey(id) == IdKey(id') ==> id == id'
    ensures SlugKey(slug) == SlugKey(slug') ==> slug == slug'
    ensures IdKey(id) != SlugKey(slug)
  {
    assert IdKey(id)[13..] == id && IdKey(id')[13..] == id';
    assert SlugKey(slug)[15..] == slug && SlugKey(slug')[15..] == slug';
    assert IdKey(id)[10] == 'i' && SlugKey(slug)[10] == 's';
  }

  ghost predicate RowsValid(rows: Rows) {
    && (forall id :: id in rows ==> rows[id].id == id)
    && (forall a, b :: a in rows && b in rows && rows[a].slug == rows[b].slug ==> a == b)
  }

  /** Every entry, under either kind of key, is the row the database has for that key. */
  ghost predicate Coherent(rows: Rows, store: map<string, Entry<Workspace>>) {
    && (forall id: WorkspaceId :: IdKey(id) in store ==> id in rows && store[IdKey(id)].value == rows[id])
    && (forall slug: string :: SlugKey(slug) in store ==>
          exists id :: id in rows && rows[id].slug == slug && store[SlugKey(slug)].value == rows[id])
  }

  /** A cached row goes in under one of its own keys. */
  lemma FillKeepsCoherence(rows: Rows, store: map<string, Entry<Workspace>>, w: Workspace, key: string, expiry: int)
    requires RowsValid(rows) && Coherent(rows, store)
    requires w.id in rows && rows[w.id] == w && (key == IdKey(w.id) || key == SlugKey(w.slug))
    ensures Coherent(rows, store[key := Entry(w, expiry)])
  {
    var store' := store[key := Entry(w, expiry)];
    forall id: WorkspaceId | IdKey(id) in store'
      ensures id in rows && store'[IdKey(id)].value == rows[id]
    {
      KeysAreDistinct(id, w.id, w.slug, w.slug);
    }
    forall slug: string | SlugKey(slug) in store'
      ensures exists id :: id in rows && rows[id].slug == slug && store'[SlugKey(slug)].value == rows[id]
    {
      KeysAreDistinct(w.id, w.id, slug, w.slug);
      if key == SlugKey(slug) {
        KeysAreDistinct(w.id, w.id, slug, w.slug);
      } else {
        assert SlugKey(slug) in store;
      }
    }
  }

  /** A row changes or goes, its slug stays its own, and both of its keys are dropped: the rest is still right. */
  lemma DropKeepsCoherence(
    rows: Rows, rows': Rows, store: map<string, Entry<Workspace>>, store': map<string, Entry<Workspace>>, w: Workspace)
    requires RowsValid(rows) && Coherent(rows, store) && w.id in rows && rows[w.id].slug == w.slug
    requires forall id :: id != w.id ==> (id in rows <==> id in rows') && (id in rows ==> rows'[id] == rows[id])
    requires store' == store - {IdKey(w.id)} - {SlugKey(w.slug)}
    ensures Coherent(rows', store')
  {
    forall slug: string | SlugKey(slug) in store'
      ensures exists id :: id in rows' && rows'[id].slug == slug && store'[SlugKey(slug)].value == rows'[id]
    {
      var id :| id in rows && rows[id].slug == slug && store[SlugKey(slug)].value == rows[id];
      assert id != w.id;
      assert id in rows' && rows'[id].slug == slug && store'[SlugKey(slug)].value == rows'[id];
    }
  }

  class WorkspaceService {
    const cacheService: CacheService<Workspace>
    var rows: Rows

    ghost predicate Valid()
      reads this, cacheService
    {
      RowsValid(rows) && Coherent(rows, cacheService.store)
    }

    constructor ()
      ensures Valid() && rows == map[] && fresh(cacheService)
    {
      cacheService := new CacheService<Workspace>();
      rows := map[];
    }

    ghost predicate HasSlug(slug: string)
      reads this
    {
      exists id :: id in rows && rows[id].slug == slug
    }

    /** `lowered` is the lower-cased name; an absent or empty slug is derived from it. */
    method CreateWorkspace(ownerId: string, name: string, lowered: string, slug: Option<string>, newId: WorkspaceId,
                           saveOk: bool)
      returns (r: Result<Workspace, WorkspaceError>)
      requires Valid() && newId !in rows
      modifies this`rows
      ensures Valid()
      ensures var s := if slug.Some? && slug.value != "" then slug.value else Slugs.Slugify(lowered);
        && (r == Err(SlugTaken) <==> old(HasSlug(s)))
        && (r.Ok? <==> !old(HasSlug(s)) && saveOk)
        && (r.Ok? ==> r.value == Workspace(newId, name, s, ownerId) && rows == old(rows)[newId := r.value])
      ensures r.Err? ==> rows == old(rows)
    {
      var workspaceSlug := if slug.Some? && slug.value != "" then slug.value else Slugs.Slugify(lowered);
      var existing := set id | id in rows && rows[id].slug == workspaceSlug;
      if existing != {} {
        var id :| id in existing;
        return Err(SlugTaken);
      }
      assert forall id :: id in rows ==> id !in existing;
      if !saveOk {
        return Err(DatabaseFailure);
      }
      var workspace := Workspace(newId, name, workspaceSlug, ownerId);
      rows := rows[newId := workspace];
      r := Ok(workspace);
      assert Coherent(rows, cacheService.store) by {
        forall s: string | SlugKey(s) in cacheService.store
          ensures exists id :: id in rows && rows[id].slug == s && cacheService.store[SlugKey(s)].value == rows[id]
        {
          var id :| id in old(rows) && old(rows)[id].slug == s && cacheService.store[SlugKey(s)].value == old(rows)[id];
          assert id in rows && rows[id] == old(rows)[id];
        }
      }
    }

    /** The answer is the database's, whether it comes from the cache or not. */
    method FindById(id: WorkspaceId, now: int) returns (r: Result<Workspace, WorkspaceError>)
      requires Valid()
      modifies cacheService
      ensures Valid()
      ensures r == if id in rows then Ok(rows[id]) else Err(NotFound)
      ensures cacheService.store == old(cacheService.store) ||
        (r.Ok? && cacheService.store == old(cacheService.store)[IdKey(id) := Entry(r.value, now + 3600)])
    {
      var cached := cacheService.Get(IdKey(id), now, true);
      if cached.Some? {
        return Ok(cached.value);
      }
      if id !in rows {
        return Err(NotFound);
      }
      FillKeepsCoherence(rows, cacheService.store, rows[id], IdKey(id), now + 3600);
      cacheService.Set(IdKey(id), rows[id], 3600, now, true);
      r := Ok(rows[id]);
    }

    method FindBySlug(slug: string, now: int) returns (r: Result<Workspace, WorkspaceError>)
      requires Valid()
      modifies cacheService
      ensures Valid()
      ensures r.Ok? <==> HasSlug(slug)
      ensures r.Ok? ==> r.value.slug == slug && r.value.id in rows && rows[r.value.id] == r.value
      ensures r.Err? ==> r == Err(NotFound)
      ensures cacheService.store == old(cacheService.store) ||
        (r.Ok? && cacheService.store == old(cacheService.store)[SlugKey(slug) := Entry(r.value, now + 3600)])
    {
      var cached := cacheService.Get(SlugKey(slug), now, true);
      if cached.Some? {
        return Ok(cached.value);
      }
      var found := set id | id in rows && rows[id].slug == slug;
      if found == {} {
        assert forall id :: id in rows ==> id !in found;
        return Err(NotFound);
      }
      var id :| id in found;
      FillKeepsCoherence(rows, cacheService.store, rows[id], SlugKey(slug), now + 3600);
      cacheService.Set(SlugKey(slug), rows[id], 3600, now, true);
      r := Ok(rows[id]);
    }

    /** A failing save leaves the row and both cached copies of it as they are. */
    method UpdateWorkspace(id: WorkspaceId, name: string, now: int, saveOk: bool)
      returns (r: Result<Workspace, WorkspaceError>)
      requires Valid()
      modifies this`rows, cacheService
      ensures Valid()
      ensures r == if id !in old(rows) then Err(NotFound)
                   else if !saveOk then Err(DatabaseFailure)
                   else Ok(old(rows)[id].(name := name))
      ensures rows == if r.Ok? then old(rows)[id := old(rows)[id].(name := name)] else old(rows)
    {
      var found := FindById(id, now);
      if found.Err? {
        return found;
      }
      var workspace := found.value.(name := name);
      if !saveOk {
        return Err(DatabaseFailure);
      }
      ghost var store := cacheService.store;
      rows := rows[workspace.id := workspace];
      cacheService.Del(IdKey(id), true);
      cacheService.Del(SlugKey(workspace.slug), true);
      DropKeepsCoherence(old(rows), rows, store, cacheService.store, workspace);
      r := Ok(workspace);
    }

    method DeleteWorkspace(id: WorkspaceId, now: int, saveOk: bool) returns (r: Result<(), WorkspaceError>)
      requires Valid()
      modifies this`rows, cacheService
      ensures Valid()
      ensures r == if id !in old(rows) then Err(NotFound) else if !saveOk then Err(DatabaseFailure) else Ok(())
      ensures rows == if r.Ok? then old(rows) - {id} else old(rows)
    {
      var found := FindById(id, now);
      if found.Err? {
        return Err(found.error);
      }
      var workspace := found.value;
      if !saveOk {
        return Err(DatabaseFailure);
      }
      ghost var store := cacheService.store;
      rows := rows - {workspace.id};
      cacheService.Del(IdKey(id), true);
      cacheService.Del(SlugKey(workspace.slug), true);
      DropKeepsCoherence(old(rows), rows, store, cacheService.store, workspace);
      r := Ok(());
    }
  }
}
