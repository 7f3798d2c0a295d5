/** The cached list of a workspace's ACTIVE projects. */
module Projects {
  import opened Common
  import opened CacheStore

  type ProjectId = string

  datatype ProjectStatus = ACTIVE | ARCHIVED
  datatype Project = Project(
    id: ProjectId, workspaceId: string, name: string, description: Option<string>, status: ProjectStatus,
    createdAt: int)

  datatype ProjectError = NotFound | DatabaseFailure

  type Rows = map<ProjectId, Project>

  function ListKey(w: string): string { "workspace:" + w + ":projects" }

  lemma ListKeyInjective(w: string, w': string)
    requires ListKey(w) == ListKey(w')
    ensures w == w'
  {
    var k, k' := ListKey(w), ListKey(w');
    assert |k| == |w| + 19 && |k'| == |w'| + 19;
    assert k[10..10 + |w|] == w && k'[10..10 + |w'|] == w';
  }

  function Active(rows: Rows, w: string): set<Project> {
    set id | id in rows && rows[id].workspaceId == w && rows[id].status == ACTIVE :: rows[id]
  }

  lemma ActiveRows(rows: Rows, w: string)
    requires forall id :: id in rows ==> rows[id].id == id
    ensures forall p: Project :: p in Active(rows, w) <==>
      p.id in rows && rows[p.id] == p && p.workspaceId == w && p.status == ACTIVE
  {
    forall p: Project | p.id in rows && rows[p.id] == p && p.workspaceId == w && p.status == ACTIVE
      ensures p in Active(rows, w)
    {
      assert p.id in rows && rows[p.id].workspaceId == w && rows[p.id].status == ACTIVE && rows[p.id] == p;
    }
  }

  /** The database returns each row of a result set once. */
  ghost predicate Orders(latestFirst: set<Project> -> seq<Project>) {
    forall rows: set<Project> :: NoDup(latestFirst(rows)) && forall p :: p in latestFirst(rows) <==> p in rows
  }

  /** `latestFirst` is the database's ordering by creation time, descending. */
  ghost predicate Coherent(
    latestFirst: set<Project> -> seq<Project>, rows: Rows, store: map<string, Entry<seq<Project>>>)
  {
    forall w :: ListKey(w) in store ==> store[ListKey(w)].value == latestFirst(Active(rows, w))
  }

  /** Changing, adding or removing one row of `w` and dropping its list keeps every other list right. */
  lemma DropKeepsCoherence(
    latestFirst: set<Project> -> seq<Project>, rows: Rows, rows': Rows, store: map<string, Entry<seq<Project>>>,
    id: ProjectId, w: string)
    requires Coherent(latestFirst, rows, store)
    requires id in rows ==> rows[id].workspaceId == w
    requires id in rows' ==> rows'[id].workspaceId == w
    requires forall x :: x != id ==> (x in rows <==> x in rows') && (x in rows ==> rows'[x] == rows[x])
    ensures Coherent(latestFirst, rows', store - {ListKey(w)})
  {
    forall w' | ListKey(w') in store - {ListKey(w)}
      ensures Active(rows', w') == Active(rows, w')
    {
      assert w' != w;
      forall p
        ensures p in Active(rows', w') <==> p in Active(rows, w')
      {
        if p in Active(rows', w') {
          var x :| x in rows' && rows'[x].workspaceId == w' && rows'[x].status == ACTIVE && rows'[x] == p;
          assert x != id && rows[x] == p;
        }
        if p in Active(rows, w') {
          var x :| x in rows && rows[x].workspaceId == w' && rows[x].status == ACTIVE && rows[x] == p;
          assert x != id && rows'[x] == p;
        }
      }
    }
  }

  class ProjectService {
    const cacheService: CacheService<seq<Project>>
    const latestFirst: set<Project> -> seq<Project>
    var rows: Rows

    ghost predicate Valid()
      reads this, cacheService
    {
      (forall id :: id in rows ==> rows[id].id == id) && Coherent(latestFirst, rows, cacheService.store)
    }

    constructor (latestFirst: set<Project> -> seq<Project>)
      ensures Valid() && rows == map[] && this.latestFirst == latestFirst && fresh(cacheService)
    {
      this.latestFirst := latestFirst;
      cacheService := new CacheService<seq<Project>>();
      rows := map[];
    }

    method CreateProject(w: string, name: string, description: Option<string>, newId: ProjectId, now: int,
                         saveOk: bool)
      returns (r: Result<Project, ProjectError>)
      requires Valid() && newId !in rows
      modifies this`rows, cacheService
      ensures Valid()
      ensures r == if saveOk then Ok(Project(newId, w, name, description, ACTIVE, now)) else Err(DatabaseFailure)
      ensures rows == if r.Ok? then old(rows)[newId := r.value] else old(rows)
    {
      if !saveOk {
        return Err(DatabaseFailure);
      }
      var saved := Project(newId, w, name, description, ACTIVE, now);
      DropKeepsCoherence(latestFirst, rows, rows[newId := saved], cacheService.store, newId, w);
      rows := rows[newId := saved];
      cacheService.Del(ListKey(w), true);
      r := Ok(saved);
    }

    /** Always the ACTIVE projects as they are now. */
    method GetProjects(w: string, now: int) returns (projects: seq<Project>)
      requires Valid()
      modifies cacheService
      ensures Valid()
      ensures projects == latestFirst(Active(rows, w))
      ensures cacheService.store == old(cacheService.store) ||
        cacheService.store == old(cacheService.store)[ListKey(w) := Entry(projects, now + 300)]
      ensures Orders(latestFirst) ==>
        && NoDup(projects)
        && forall p: Project :: p in projects <==>
             p.id in rows && rows[p.id] == p && p.workspaceId == w && p.status == ACTIVE
    {
      ActiveRows(rows, w);
      var cached := cacheService.Get(ListKey(w), now, true);
      if cached.Some? {
        return cached.value;
      }
      projects := latestFirst(Active(rows, w));
      cacheService.Set(ListKey(w), projects, 300, now, true);
      forall w' | ListKey(w') in cacheService.store
        ensures cacheService.store[ListKey(w')].value == latestFirst(Active(rows, w'))
      {
        if ListKey(w') == ListKey(w) {
          ListKeyInjective(w, w');
        }
      }
    }

    method FindById(id: ProjectId, w: string) returns (r: Result<Project, ProjectError>)
      ensures r == if id in rows && rows[id].workspaceId == w then Ok(rows[id]) else Err(NotFound)
    {
      if id in rows && rows[id].workspaceId == w {
        r := Ok(rows[id]);
      } else {
        r := Err(NotFound);
      }
    }

    method UpdateProject(id: ProjectId, w: string, name: Option<string>, description: Option<Option<string>>,
                         status: Option<ProjectStatus>, saveOk: bool)
      returns (r: Result<Project, ProjectError>)
      requires Valid()
      modifies this`rows, cacheService
      ensures Valid()
      ensures r == Err(NotFound) <==> !(id in old(rows) && old(rows)[id].workspaceId == w)
      ensures r == Err(DatabaseFailure) <==> id in old(rows) && old(rows)[id].workspaceId == w && !saveOk
      ensures r.Ok? ==>
        && rows == old(rows)[id := r.value]
        && r.value.id == id && r.value.workspaceId == w && r.value.createdAt == old(rows)[id].createdAt
        && r.value.name == (if name.Some? then name.value else old(rows)[id].name)
        && r.value.description == (if description.Some? then description.value else old(rows)[id].description)
        && r.value.status == (if status.Some? then status.value else old(rows)[id].status)
      ensures r.Err? ==> rows == old(rows)
    {
      r := FindById(id, w);
      if r.Err? {
        return;
      }
      var project := r.value;
      if name.Some? { project := project.(name := name.value); }
      if description.Some? { project := project.(description := description.value); }
      if status.Some? { project := project.(status := status.value); }
      if !saveOk {
        return Err(DatabaseFailure);
      }
      DropKeepsCoherence(latestFirst, rows, rows[id := project], cacheService.store, id, w);
      rows := rows[id := project];
      cacheService.Del(ListKey(w), true);
      r := Ok(project);
    }

    method DeleteProject(id: ProjectId, w: string, saveOk: bool) returns (r: Result<(), ProjectError>)
      requires Valid()
      modifies this`rows, cacheService
      ensures Valid()
      ensures r == Err(NotFound) <==> !(id in old(rows) && old(rows)[id].workspaceId == w)
      ensures r == Err(DatabaseFailure) <==> id in old(rows) && old(rows)[id].workspaceId == w && !saveOk
      ensures rows == if r.Ok? then old(rows) - {id} else old(rows)
    {
      var found := FindById(id, w);
      if found.Err? {
        return Err(NotFound);
      }
      if !saveOk {
        return Err(DatabaseFailure);
      }
      DropKeepsCoherence(latestFirst, rows, rows - {id}, cacheService.store, id, w);
      rows := rows - {id};
      cacheService.Del(ListKey(w), true);
      r := Ok(());
    }
  }
}
