/** The history search index and the triggers that keep it
    (backend/app/db/migrations/versions/0009_history_search.py). */
module SearchIndex {

  type Id = string
  /** A text column that may be NULL. */
  datatype Text = Null | Text(text: string)

  /** What the index reads of a row of `jobs`; `other` stands for every column it does not. */
  datatype Job = Job(request: Id, source: Text, episode: Text, other: string)

  /** A row of `jobs_fts`. */
  datatype Entry = Entry(job: Id, request: Id, requestTitle: Text, source: Text, episode: Text)

  /** The columns of `jobs` an UPDATE statement may name. */
  datatype Column = IdColumn | RequestColumn | SourceColumn | EpisodeColumn | OtherColumn

  /** `UPDATE OF request_id, source_title, episode_title`: what is named counts, changed or not. */
  predicate FiresUpdate(named: set<Column>) {
    RequestColumn in named || SourceColumn in named || EpisodeColumn in named
  }

  /** An UPDATE leaves every column it does not name as it was. */
  predicate Honours(named: set<Column>, id: Id, job: Job, newId: Id, newJob: Job) {
    && (IdColumn !in named ==> newId == id)
    && (RequestColumn !in named ==> newJob.request == job.request)
    && (SourceColumn !in named ==> newJob.source == job.source)
    && (EpisodeColumn !in named ==> newJob.episode == job.episode)
    && (OtherColumn !in named ==> newJob.other == job.other)
  }

  function TitleOf(requests: map<Id, Text>, id: Id): Text {
    if id in requests then requests[id] else Null
  }

  /** The row the insert and update triggers and the backfill write for a job. */
  function EntryFor(requests: map<Id, Text>, id: Id, job: Job): Entry {
    Entry(id, job.request, TitleOf(requests, job.request), job.source, job.episode)
  }

  /** `jobs JOIN requests ON requests.id = jobs.request_id`, on the indexed columns. */
  predicate InJoin(requests: map<Id, Text>, jobs: map<Id, Job>, e: Entry) {
    && e.job in jobs
    && var job := jobs[e.job];
      && job.request in requests && e.request == job.request && e.requestTitle == requests[job.request]
      && e.source == job.source && e.episode == job.episode
  }

  /** The index is the join: every row of the join is there once, and nothing else is. */
  ghost predicate IsJoin(requests: map<Id, Text>, jobs: map<Id, Job>, fts: seq<Entry>) {
    forall e: Entry :: multiset(fts)[e] == if InJoin(requests, jobs, e) then 1 else 0
  }

  predicate ForeignKeys(requests: map<Id, Text>, jobs: map<Id, Job>) {
    forall id :: id in jobs ==> jobs[id].request in requests
  }

  // --- What the statements inside the triggers do to the index --------------------------

  /** `DELETE FROM jobs_fts WHERE job_id = id`. */
  function Without(fts: seq<Entry>, id: Id): seq<Entry> {
    if fts == [] then []
    else (if fts[0].job == id then [] else [fts[0]]) + Without(fts[1..], id)
  }

  lemma {:induction false} WithoutCount(fts: seq<Entry>, id: Id, e: Entry)
    ensures multiset(Without(fts, id))[e] == if e.job == id then 0 else multiset(fts)[e]
  {
    if fts != [] {
      WithoutCount(fts[1..], id, e);
      assert fts == [fts[0]] + fts[1..];
    }
  }

  /** `UPDATE jobs_fts SET request_title = title WHERE request_id = request`. */
  function Retitled(fts: seq<Entry>, request: Id, title: Text): seq<Entry> {
    if fts == [] then [] else [RetitledEntry(fts[0], request, title)] + Retitled(fts[1..], request, title)
  }

  function RetitledEntry(e: Entry, request: Id, title: Text): Entry {
    if e.request == request then e.(requestTitle := title) else e
  }

  /** When all of a request's rows had one title, they keep their number under the new one. */
  lemma {:induction false} RetitledCount(fts: seq<Entry>, request: Id, before: Text, title: Text, e: Entry)
    requires forall x :: x in fts && x.request == request ==> x.requestTitle == before
    ensures multiset(Retitled(fts, request, title))[e] == CountBefore(fts, request, before, title, e)
  {
    hide CountBefore, RetitledEntry;
    if fts == [] {
      NothingBefore(request, before, title, e);
    } else {
      var head, rest := fts[0], fts[1..];
      RetitledCount(rest, request, before, title, e);
      assert head.request == request ==> head.requestTitle == before;
      CountBeforeCons(head, rest, request, before, title, e);
      assert fts == [head] + rest;
      AppendFrontCount(RetitledEntry(head, request, title), Retitled(rest, request, title), e);
    }
  }

  /** How many rows become `e`. */
  function CountBefore(fts: seq<Entry>, request: Id, before: Text, title: Text, e: Entry): nat {
    if e.request != request then multiset(fts)[e]
    else if e.requestTitle == title then multiset(fts)[e.(requestTitle := before)]
    else 0
  }

  lemma NothingBefore(request: Id, before: Text, title: Text, e: Entry)
    ensures CountBefore([], request, before, title, e) == 0
  {
  }

  lemma CountBeforeCons(head: Entry, rest: seq<Entry>, request: Id, before: Text, title: Text, e: Entry)
    requires head.request == request ==> head.requestTitle == before
    ensures CountBefore([head] + rest, request, before, title, e) ==
            CountBefore(rest, request, before, title, e) + if RetitledEntry(head, request, title) == e then 1 else 0
  {
    AppendFrontCount(head, rest, e);
    AppendFrontCount(head, rest, e.(requestTitle := before));
  }

  lemma AppendFrontCount(head: Entry, rest: seq<Entry>, e: Entry)
    ensures multiset([head] + rest)[e] == multiset(rest)[e] + if head == e then 1 else 0
  {
  }

  lemma AppendCount(fts: seq<Entry>, added: Entry, e: Entry)
    ensures multiset(fts + [added])[e] == multiset(fts)[e] + if e == added then 1 else 0
  {
  }

  // --- Each trigger keeps the join ------------------------------------------------------

  lemma InsertKeepsJoin(requests: map<Id, Text>, jobs: map<Id, Job>, fts: seq<Entry>, id: Id, job: Job)
    requires IsJoin(requests, jobs, fts) && id !in jobs && job.request in requests
    ensures IsJoin(requests, jobs[id := job], fts + [EntryFor(requests, id, job)])
  {
    forall e: Entry
      ensures multiset(fts + [EntryFor(requests, id, job)])[e] == if InJoin(requests, jobs[id := job], e) then 1 else 0
    {
      AppendCount(fts, EntryFor(requests, id, job), e);
    }
  }

  lemma DeleteKeepsJoin(requests: map<Id, Text>, jobs: map<Id, Job>, fts: seq<Entry>, id: Id)
    requires IsJoin(requests, jobs, fts)
    ensures IsJoin(requests, jobs - {id}, Without(fts, id))
  {
    forall e: Entry
      ensures multiset(Without(fts, id))[e] == if InJoin(requests, jobs - {id}, e) then 1 else 0
    {
      WithoutCount(fts, id, e);
    }
  }

  lemma RetitleKeepsJoin(requests: map<Id, Text>, jobs: map<Id, Job>, fts: seq<Entry>, request: Id, title: Text)
    requires IsJoin(requests, jobs, fts) && request in requests
    ensures IsJoin(requests[request := title], jobs, Retitled(fts, request, title))
  {
    forall x | x in fts && x.request == request ensures x.requestTitle == requests[request] {
      assert multiset(fts)[x] > 0;
    }
    forall e: Entry
      ensures multiset(Retitled(fts, request, title))[e] == if InJoin(requests[request := title], jobs, e) then 1 else 0
    {
      RetitledCount(fts, request, requests[request], title, e);
    }
  }

  /** A request with no jobs is not in the join. */
  lemma ChildlessRequest(requests: map<Id, Text>, jobs: map<Id, Job>, fts: seq<Entry>, id: Id)
    requires ForeignKeys(requests, jobs) && IsJoin(requests, jobs, fts)
    requires forall job :: job in jobs ==> jobs[job].request != id
    ensures ForeignKeys(requests - {id}, jobs) && IsJoin(requests - {id}, jobs, fts)
  {
    forall e: Entry ensures InJoin(requests - {id}, jobs, e) <==> InJoin(requests, jobs, e) {
    }
  }

  /** An update that fires no trigger leaves a join exactly when it leaves the id alone. */
  lemma SilentUpdate(requests: map<Id, Text>, jobs: map<Id, Job>, fts: seq<Entry>, named: set<Column>,
                     id: Id, newId: Id, newJob: Job)
    requires IsJoin(requests, jobs, fts) && ForeignKeys(requests, jobs)
    requires id in jobs && (newId == id || newId !in jobs)
    requires Honours(named, id, jobs[id], newId, newJob) && !FiresUpdate(named)
    ensures IsJoin(requests, (jobs - {id})[newId := newJob], fts) <==> newId == id
  {
    var later := (jobs - {id})[newId := newJob];
    if newId == id {
      forall e: Entry ensures InJoin(requests, later, e) <==> InJoin(requests, jobs, e) {
      }
    } else {
      var e := EntryFor(requests, id, jobs[id]);
      assert InJoin(requests, jobs, e) && !InJoin(requests, later, e);
      assert multiset(fts)[e] == 1;
    }
  }

  /** One such update: giving the only job a new id leaves the old one in the index. */
  lemma RenameLeavesStaleRow()
    ensures
      var requests: map<Id, Text> := map["r" := Null];
      var job := Job("r", Text("clip"), Null, "");
      var fts := [EntryFor(requests, "a", job)];
      IsJoin(requests, map["a" := job], fts) && !IsJoin(requests, map["b" := job], fts)
  {
    var requests: map<Id, Text> := map["r" := Null];
    var job := Job("r", Text("clip"), Null, "");
    var jobs: map<Id, Job> := map["a" := job];
    InsertKeepsJoin(requests, map[], [], "a", job);
    assert map[]["a" := job] == jobs && [] + [EntryFor(requests, "a", job)] == [EntryFor(requests, "a", job)];
    SilentUpdate(requests, jobs, [EntryFor(requests, "a", job)], {IdColumn}, "a", "b", job);
    assert (jobs - {"a"})["b" := job] == map["b" := job];
  }

  class Database {
    /** `requests`: each one's title. */
    var requests: map<Id, Text>
    var jobs: map<Id, Job>
    var fts: seq<Entry>

    ghost predicate Valid()
      reads this
    {
      ForeignKeys(requests, jobs) && IsJoin(requests, jobs, fts)
    }

    /** `upgrade`: an empty index, then the backfill, over tables that may hold anything. */
    constructor Upgrade(requests: map<Id, Text>, jobs: map<Id, Job>)
      requires ForeignKeys(requests, jobs)
      ensures Valid() && this.requests == requests && this.jobs == jobs
    {
      this.requests, this.jobs, fts := requests, jobs, [];
      new;
      Backfill();
    }

    /** `BACKFILL`, which joins: a job without its request would get no row. */
    method Backfill()
      requires fts == [] && ForeignKeys(requests, jobs)
      modifies this`fts
      ensures IsJoin(requests, jobs, fts)
    {
      var left := jobs.Keys;
      while left != {}
        invariant left <= jobs.Keys
        invariant IsJoin(requests, jobs - left, fts)
        decreases |left|
      {
        var id :| id in left;
        if jobs[id].request in requests {
          InsertKeepsJoin(requests, jobs - left, fts, id, jobs[id]);
          fts := fts + [EntryFor(requests, id, jobs[id])];
        }
        assert (jobs - left)[id := jobs[id]] == jobs - (left - {id});
        left := left - {id};
      }
      assert jobs - {} == jobs;
    }

    method InsertRequest(id: Id, title: Text)
      requires Valid() && id !in requests
      modifies this`requests
      ensures Valid() && requests == old(requests)[id := title]
    {
      requests := requests[id := title];
      forall e: Entry ensures InJoin(requests, jobs, e) <==> InJoin(old(requests), jobs, e) {
      }
    }

    /** INSERT INTO jobs, with the trigger `jobs_fts_insert`. */
    method InsertJob(id: Id, job: Job)
      requires Valid() && id !in jobs && job.request in requests
      modifies this`jobs, this`fts
      ensures Valid() && jobs == old(jobs)[id := job]
    {
      InsertKeepsJoin(requests, jobs, fts, id, job);
      jobs := jobs[id := job];
      fts := fts + [EntryFor(requests, id, job)];
    }

    /** UPDATE jobs, with the trigger `jobs_fts_update`. The index stays the join for every
        update that keeps the id or names one of the three columns, and for no other. */
    method UpdateJob(named: set<Column>, id: Id, newId: Id, newJob: Job)
      requires Valid() && id in jobs && (newId == id || newId !in jobs)
      requires Honours(named, id, jobs[id], newId, newJob) && newJob.request in requests
      modifies this`jobs, this`fts
      ensures jobs == (old(jobs) - {id})[newId := newJob] && ForeignKeys(requests, jobs)
      ensures IsJoin(requests, jobs, fts) <==> newId == id || FiresUpdate(named)
    {
      if FiresUpdate(named) {
        DeleteKeepsJoin(requests, jobs, fts, id);
        InsertKeepsJoin(requests, jobs - {id}, Without(fts, id), newId, newJob);
        fts := Without(fts, id);
        fts := fts + [EntryFor(requests, newId, newJob)];
      } else {
        SilentUpdate(requests, jobs, fts, named, id, newId, newJob);
      }
      jobs := (jobs - {id})[newId := newJob];
    }

    /** DELETE FROM jobs, with the trigger `jobs_fts_delete`. */
    method DeleteJob(id: Id)
      requires ForeignKeys(requests, jobs) && IsJoin(requests, jobs, fts)
      modifies this`jobs, this`fts
      ensures Valid() && jobs == old(jobs) - {id}
    {
      DeleteKeepsJoin(requests, jobs, fts, id);
      jobs := jobs - {id};
      fts := Without(fts, id);
    }

    /** DELETE FROM requests: the cascade deletes its jobs one by one, firing their trigger. */
    method DeleteRequest(id: Id)
      requires Valid()
      modifies this
      ensures Valid() && requests == old(requests) - {id}
      ensures jobs == map job | job in old(jobs) && old(jobs)[job].request != id :: old(jobs)[job]
    {
      ghost var all := set job | job in jobs && jobs[job].request == id;
      var children := set job | job in jobs && jobs[job].request == id;
      while children != {}
        invariant Valid() && requests == old(requests)
        invariant children <= all && jobs == old(jobs) - (all - children)
        decreases |children|
      {
        var child :| child in children;
        DeleteJob(child);
        children := children - {child};
      }
      ChildlessRequest(requests, jobs, fts, id);
      requests := requests - {id};
    }

    /** UPDATE requests on one row, with the trigger `requests_fts_title`: it fires only when
        the statement names the title. */
    method UpdateRequest(id: Id, namesTitle: bool, title: Text)
      requires Valid() && id in requests && (namesTitle || title == requests[id])
      modifies this`requests, this`fts
      ensures Valid() && requests == old(requests)[id := title]
    {
      if namesTitle {
        RetitleKeepsJoin(requests, jobs, fts, id, title);
        fts := Retitled(fts, id, title);
      } else {
        assert requests[id := title] == requests;
      }
      requests := requests[id := title];
    }
  }
}
