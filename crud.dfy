/** The generic CRUD service: `GenericService` over a repository of entities keyed by id.

    The repository stands for Spring Data's `JpaRepository`: a map from id to stored entity and
    the next id its generator hands out. The mapper stands for the generated `GenericMapper`:
    three functions about which nothing is assumed. */
module Crud {
  import opened Common

  type Id = int

  /** `ExceptionConstants.NOT_FOUND` */
  const NOT_FOUND: string := "Not found Exception"
  /** `EntityConstants.ID`, the property `findAll()` sorts by. */
  const ID: string := "id"

  /** `NotFoundException(NOT_FOUND, id)`, answered with HTTP 404. */
  datatype Error = NotFound(message: string, id: Id)

  /** An entity: its identifier (absent until the entity is first persisted) and its other
      attributes. */
  datatype Entity<A> = Entity(id: Option<Id>, attrs: A)

  /** `GenericMapper`: `toDto`, `toEntity`, and `updateEntity(dto, entity)`, which rewrites the
      attributes of an entity in place; the identifier of a persisted entity is never rewritten. */
  datatype Mapper<!A, !D> = Mapper(toDto: Entity<A> -> D, toEntity: D -> Entity<A>, updateEntity: (D, A) -> A)

  // ---------------------------------------------------------------------------------------
  // Sorting

  datatype Direction = Asc | Desc

  /** `Sort`: the property sorted by, as an integer rank of each entity, and the direction. */
  datatype Sort<!A> = Sort(key: Entity<A> -> int, direction: Direction)

  /** The identifier as a sort key; absent identifiers never reach a query. */
  function IdValue<A>(e: Entity<A>): int {
    match e.id case None => 0 case Some(i) => i
  }

  /** `Sort.by(direction, "id")` */
  function ById<A>(direction: Direction): Sort<A> {
    Sort(IdValue, direction)
  }

  /** `x` comes strictly before `y` under the sort. */
  predicate Precedes<A>(sort: Sort<A>, x: Entity<A>, y: Entity<A>) {
    if sort.direction == Asc then sort.key(x) < sort.key(y) else sort.key(x) > sort.key(y)
  }

  predicate SortedBy<A>(es: seq<Entity<A>>, sort: Sort<A>) {
    forall i, j :: 0 <= i < j < |es| ==> !Precedes(sort, es[j], es[i])
  }

  /** Places `x` after every element of `t` that does not come after it. */
  function Insert<A(==)>(sort: Sort<A>, x: Entity<A>, t: seq<Entity<A>>): (r: seq<Entity<A>>)
    ensures multiset(r) == multiset(t) + multiset{x}
  {
    if t == [] then [x]
    else if Precedes(sort, x, t[0]) then [x] + t
    else
      assert t == [t[0]] + t[1..];
      [t[0]] + Insert(sort, x, t[1..])
  }

  /** Insertion keeps a sorted sequence sorted. */
  lemma {:induction false} InsertSorted<A>(sort: Sort<A>, x: Entity<A>, t: seq<Entity<A>>)
    requires SortedBy(t, sort)
    ensures SortedBy(Insert(sort, x, t), sort)
  {
    if t != [] && !Precedes(sort, x, t[0]) {
      var rest := Insert(sort, x, t[1..]);
      assert SortedBy(t[1..], sort);
      InsertSorted(sort, x, t[1..]);
      forall j | 0 <= j < |rest| ensures !Precedes(sort, rest[j], t[0]) {
        assert rest[j] in multiset(rest);
        HeadNotPreceded(sort, x, t, rest[j]);
      }
      ConsSorted(sort, t[0], rest);
    }
  }

  /** What the insertion into the tail holds is either `x` or an element of the tail, and
      neither comes before the head. */
  lemma HeadNotPreceded<A>(sort: Sort<A>, x: Entity<A>, t: seq<Entity<A>>, e: Entity<A>)
    requires t != [] && !Precedes(sort, x, t[0]) && SortedBy(t, sort)
    requires e in multiset(t[1..]) + multiset{x}
    ensures !Precedes(sort, e, t[0])
  {
    if e != x {
      assert e in t[1..];
      var k :| 0 <= k < |t[1..]| && t[1..][k] == e;
      assert t[k + 1] == e;
    }
  }

  /** A head that nothing in a sorted tail comes before starts a sorted sequence. */
  lemma ConsSorted<A>(sort: Sort<A>, h: Entity<A>, t: seq<Entity<A>>)
    requires SortedBy(t, sort)
    requires forall j :: 0 <= j < |t| ==> !Precedes(sort, t[j], h)
    ensures SortedBy([h] + t, sort)
  {
    var r := [h] + t;
    forall i, j | 0 <= i < j < |r| ensures !Precedes(sort, r[j], r[i]) {
      assert r[j] == t[j - 1];
      if i > 0 {
        assert r[i] == t[i - 1];
      }
    }
  }

  /** The rows ordered by the sort: insertion sort, one row at a time. */
  function SortBy<A(==)>(sort: Sort<A>, s: seq<Entity<A>>): (r: seq<Entity<A>>)
    ensures SortedBy(r, sort)
    ensures multiset(r) == multiset(s)
  {
    if s == [] then []
    else
      assert s == s[..|s| - 1] + [s[|s| - 1]];
      InsertSorted(sort, s[|s| - 1], SortBy(sort, s[..|s| - 1]));
      Insert(sort, s[|s| - 1], SortBy(sort, s[..|s| - 1]))
  }

  /** Inserting an element that follows all others appends it. */
  lemma {:induction false} InsertLast<A>(sort: Sort<A>, x: Entity<A>, t: seq<Entity<A>>)
    requires forall e :: e in t ==> !Precedes(sort, x, e)
    ensures Insert(sort, x, t) == t + [x]
  {
    if t != [] {
      assert t + [x] == [t[0]] + (t[1..] + [x]);
      assert forall e :: e in t[1..] ==> e in t;
      InsertLast(sort, x, t[1..]);
    }
  }

  /** Sorting an already sorted sequence leaves it as it is. */
  lemma {:induction false} SortBySorted<A>(sort: Sort<A>, s: seq<Entity<A>>)
    requires SortedBy(s, sort)
    ensures SortBy(sort, s) == s
  {
    if s != [] {
      var p, x := s[..|s| - 1], s[|s| - 1];
      assert s == p + [x];
      assert SortBy(sort, p) == p by {
        SortedPrefix(sort, s);
        SortBySorted(sort, p);
      }
      assert Insert(sort, x, p) == p + [x] by {
        LastFollows(sort, s);
        InsertLast(sort, x, p);
      }
      SortByUnfold(sort, s);
    }
  }

  lemma SortByUnfold<A>(sort: Sort<A>, s: seq<Entity<A>>)
    requires s != []
    ensures SortBy(sort, s) == Insert(sort, s[|s| - 1], SortBy(sort, s[..|s| - 1]))
  {
  }

  lemma SortedPrefix<A>(sort: Sort<A>, s: seq<Entity<A>>)
    requires s != [] && SortedBy(s, sort)
    ensures SortedBy(s[..|s| - 1], sort)
  {
    var p := s[..|s| - 1];
    forall i, j | 0 <= i < j < |p| ensures !Precedes(sort, p[j], p[i]) {
      assert p[i] == s[i] && p[j] == s[j];
    }
  }

  lemma LastFollows<A>(sort: Sort<A>, s: seq<Entity<A>>)
    requires s != [] && SortedBy(s, sort)
    ensures var p := s[..|s| - 1]; forall e :: e in p ==> !Precedes(sort, s[|s| - 1], e)
  {
    var p := s[..|s| - 1];
    forall e | e in p ensures !Precedes(sort, s[|s| - 1], e) {
      var i :| 0 <= i < |p| && p[i] == e;
      assert s[i] == e;
    }
  }

  // ---------------------------------------------------------------------------------------
  // Key order

  lemma {:induction false} MinExists(ks: set<Id>)
    requires ks != {}
    ensures exists m :: m in ks && forall k :: k in ks ==> m <= k
    decreases |ks|
  {
    if forall k :: k !in ks {
      assert false;
    }
    var x :| x in ks;
    if ks == {x} {
      assert forall k :: k in ks ==> x <= k;
    } else {
      var rest := ks - {x};
      MinExists(rest);
      var m :| m in rest && forall k :: k in rest ==> m <= k;
      var least := if x < m then x else m;
      assert least in ks && forall k :: k in ks ==> least <= k by {
        forall k | k in ks ensures least <= k {
          if k != x { assert k in rest; }
        }
      }
    }
  }

  /** The smallest identifier of a non-empty set. */
  function Least(ks: set<Id>): (m: Id)
    requires ks != {}
    ensures m in ks && forall k :: k in ks ==> m <= k
  {
    MinExists(ks);
    var m :| m in ks && forall k :: k in ks ==> m <= k;
    m
  }

  /** Putting the least identifier in front of the others in ascending order lists them all
      in ascending order. */
  lemma PrependLeast(ks: set<Id>, m: Id, rest: seq<Id>)
    requires m in ks && forall k :: k in ks ==> m <= k
    requires |rest| == |ks - {m}| && forall k :: k in rest <==> k in ks - {m}
    requires forall i, j :: 0 <= i < j < |rest| ==> rest[i] < rest[j]
    ensures |[m] + rest| == |ks|
    ensures forall k :: k in [m] + rest <==> k in ks
    ensures forall i, j :: 0 <= i < j < |[m] + rest| ==> ([m] + rest)[i] < ([m] + rest)[j]
  {
    assert |ks - {m}| == |ks| - 1;
    var r := [m] + rest;
    forall i, j | 0 <= i < j < |r| ensures r[i] < r[j] {
      assert r[j] == rest[j - 1];
      assert rest[j - 1] in ks - {m};
      if i > 0 { assert r[i] == rest[i - 1]; }
    }
  }

  /** The identifiers in ascending order. */
  function SortedKeys(ks: set<Id>): (r: seq<Id>)
    ensures |r| == |ks|
    ensures forall k :: k in r <==> k in ks
    ensures forall i, j :: 0 <= i < j < |r| ==> r[i] < r[j]
    decreases |ks|
  {
    if ks == {} then []
    else
      var m := Least(ks);
      var rest := SortedKeys(ks - {m});
      PrependLeast(ks, m, rest);
      [m] + rest
  }

  /** The stored entities in ascending order of their keys. */
  function KeyOrder<A>(rows: map<Id, Entity<A>>): (r: seq<Entity<A>>)
    ensures |r| == |rows|
  {
    var ks := SortedKeys(rows.Keys);
    assert |rows.Keys| == |rows|;
    seq(|ks|, i requires 0 <= i < |ks| => rows[ks[i]])
  }

  /** Each row stored under its own identifier. */
  ghost predicate Keyed<A>(rows: map<Id, Entity<A>>) {
    forall id :: id in rows ==> rows[id].id == Some(id)
  }

  /** Over rows keyed by their identifiers, the key order lists each stored entity once,
      identifiers strictly ascending. */
  lemma KeyOrderListsRows<A>(rows: map<Id, Entity<A>>)
    requires Keyed(rows)
    ensures forall e :: e in KeyOrder(rows) <==> e in rows.Values
    ensures forall i, j :: 0 <= i < j < |KeyOrder(rows)| ==> IdValue(KeyOrder(rows)[i]) < IdValue(KeyOrder(rows)[j])
  {
    KeyOrderMembers(rows);
    KeyOrderAscending(rows);
  }

  lemma KeyOrderMembers<A>(rows: map<Id, Entity<A>>)
    ensures forall e :: e in KeyOrder(rows) <==> e in rows.Values
  {
    forall e | e in KeyOrder(rows) ensures e in rows.Values {
      KeyOrderMemberStored(rows, e);
    }
    forall e | e in rows.Values ensures e in KeyOrder(rows) {
      StoredKeyOrderMember(rows, e);
    }
  }

  lemma KeyOrderMemberStored<A>(rows: map<Id, Entity<A>>, e: Entity<A>)
    requires e in KeyOrder(rows)
    ensures e in rows.Values
  {
    var ks := SortedKeys(rows.Keys);
    var r := KeyOrder(rows);
    var i :| 0 <= i < |r| && r[i] == e;
    assert ks[i] in rows;
  }

  lemma StoredKeyOrderMember<A>(rows: map<Id, Entity<A>>, e: Entity<A>)
    requires e in rows.Values
    ensures e in KeyOrder(rows)
  {
    var ks := SortedKeys(rows.Keys);
    var r := KeyOrder(rows);
    var id :| id in rows && rows[id] == e;
    var i :| 0 <= i < |ks| && ks[i] == id;
    assert r[i] == e;
  }

  lemma KeyOrderAscending<A>(rows: map<Id, Entity<A>>)
    requires Keyed(rows)
    ensures forall i, j :: 0 <= i < j < |KeyOrder(rows)| ==> IdValue(KeyOrder(rows)[i]) < IdValue(KeyOrder(rows)[j])
  {
    var ks := SortedKeys(rows.Keys);
    var r := KeyOrder(rows);
    forall i | 0 <= i < |r| ensures IdValue(r[i]) == ks[i] {
      assert r[i] == rows[ks[i]];
    }
  }

  // ---------------------------------------------------------------------------------------
  // Repository

  /** What `repository.save(e)` stores: `e` itself, given the next generated id when it has none. */
  function Stored<A>(nextId: Id, e: Entity<A>): (s: Entity<A>)
    ensures s.id.Some? && s.attrs == e.attrs
    ensures e.id.None? ==> s.id == Some(nextId)
    ensures e.id.Some? ==> s == e
  {
    if e.id.None? then e.(id := Some(nextId)) else e
  }

  class Repository<A(==,!new)> {
    var rows: map<Id, Entity<A>>
    var nextId: Id

    ghost predicate Valid()
      reads this
    {
      Keyed(rows) && forall id :: id in rows ==> id < nextId
    }

    constructor ()
      ensures Valid() && rows == map[] && nextId == 1
    {
      rows := map[];
      nextId := 1;
    }

    /** `findById(id)` */
    function FindById(id: Id): (r: Option<Entity<A>>)
      reads this
      ensures r.Some? <==> id in rows
      ensures r.Some? ==> r.value == rows[id]
    {
      if id in rows then Some(rows[id]) else None
    }

    /** `findAll(sort)`: every stored entity once, ordered by the sort. */
    function FindAll(sort: Sort<A>): (r: seq<Entity<A>>)
      reads this
      requires Valid()
      ensures SortedBy(r, sort)
      ensures |r| == |rows|
      ensures forall e :: e in r <==> e in rows.Values
    {
      KeyOrderListsRows(rows);
      var r := SortBy(sort, KeyOrder(rows));
      assert forall e :: e in r <==> e in multiset(KeyOrder(rows));
      r
    }

    /** `save(entity)`: insert or replace the entity under its identifier. */
    method Save(e: Entity<A>) returns (saved: Entity<A>)
      requires Valid()
      modifies this
      ensures Valid()
      ensures saved == Stored(old(nextId), e)
      ensures rows == old(rows)[saved.id.value := saved]
      ensures nextId >= old(nextId)
    {
      saved := Stored(nextId, e);
      var id := saved.id.value;
      rows := rows[id := saved];
      if id >= nextId {
        nextId := id + 1;
      }
    }

    /** `deleteById(id)`: a missing identifier is ignored. */
    method DeleteById(id: Id)
      requires Valid()
      modifies this
      ensures Valid()
      ensures rows == old(rows) - {id} && nextId == old(nextId)
    {
      rows := rows - {id};
    }
  }

  /** Every identifier `findAll()` lists comes strictly after the one before it: a sort by
      identifier over rows keyed by identifier leaves the key order as it is. */
  lemma FindAllById<A(!new)>(repository: Repository<A>)
    requires repository.Valid()
    ensures repository.FindAll(ById(Asc)) == KeyOrder(repository.rows)
  {
    KeyOrderListsRows(repository.rows);
    SortBySorted(ById(Asc), KeyOrder(repository.rows));
  }

  // ---------------------------------------------------------------------------------------
  // Service

  /** The entity `update(id, dto)` saves: the stored entity with its attributes rewritten. */
  function Updated<A, D>(mapper: Mapper<A, D>, id: Id, dto: D, current: Entity<A>): (e: Entity<A>)
    ensures e.id == Some(id)
  {
    Entity(Some(id), mapper.updateEntity(dto, current.attrs))
  }

  class GenericService<A(==,!new), D> {
    const repository: Repository<A>
    const mapper: Mapper<A, D>

    constructor (repository: Repository<A>, mapper: Mapper<A, D>)
      ensures this.repository == repository && this.mapper == mapper
    {
      this.repository := repository;
      this.mapper := mapper;
    }

    /** `findAllEntity()`: every stored entity once, identifiers strictly ascending. */
    function FindAllEntity(): (r: seq<Entity<A>>)
      reads repository
      requires repository.Valid()
      ensures |r| == |repository.rows|
      ensures forall e :: e in r <==> e in repository.rows.Values
      ensures forall i, j :: 0 <= i < j < |r| ==> IdValue(r[i]) < IdValue(r[j])
    {
      FindAllById(repository);
      KeyOrderListsRows(repository.rows);
      repository.FindAll(ById(Asc))
    }

    /** `findAll()`: `toDto` of each entity of `findAllEntity()`, in the same order. */
    function FindAll(): (r: seq<D>)
      reads repository
      requires repository.Valid()
      ensures |r| == |FindAllEntity()|
      ensures forall i :: 0 <= i < |r| ==> r[i] == mapper.toDto(FindAllEntity()[i])
    {
      var es := repository.FindAll(ById(Asc));
      seq(|es|, i requires 0 <= i < |es| => mapper.toDto(es[i]))
    }

    /** `findAllEntity(sort)`: every stored entity once, ordered by the sort. */
    function FindAllEntitySorted(sort: Sort<A>): (r: seq<Entity<A>>)
      reads repository
      requires repository.Valid()
      ensures SortedBy(r, sort)
      ensures |r| == |repository.rows|
      ensures forall e :: e in r <==> e in repository.rows.Values
    {
      repository.FindAll(sort)
    }

    /** `findAll(sort)`: `toDto` of each entity of `findAllEntity(sort)`, in the same order. */
    function FindAllSorted(sort: Sort<A>): (r: seq<D>)
      reads repository
      requires repository.Valid()
      ensures |r| == |FindAllEntitySorted(sort)|
      ensures forall i :: 0 <= i < |r| ==> r[i] == mapper.toDto(FindAllEntitySorted(sort)[i])
    {
      var es := repository.FindAll(sort);
      seq(|es|, i requires 0 <= i < |es| => mapper.toDto(es[i]))
    }

    /** `findEntity(id)`: the stored entity, or `NotFoundException(NOT_FOUND, id)`. */
    function FindEntity(id: Id): (r: Result<Entity<A>, Error>)
      reads repository
      ensures r.Err? <==> id !in repository.rows
      ensures r.Err? ==> r.error == NotFound(NOT_FOUND, id)
      ensures r.Ok? ==> r.value == repository.rows[id]
    {
      match repository.FindById(id)
      case Some(e) => Ok(e)
      case None => Err(NotFound(NOT_FOUND, id))
    }

    /** `find(id)`: `toDto` of the stored entity, failing exactly as `findEntity` does. */
    function Find(id: Id): (r: Result<D, Error>)
      reads repository
      ensures r.Err? <==> FindEntity(id).Err?
      ensures r.Err? ==> r.error == FindEntity(id).error
      ensures r.Ok? ==> r.value == mapper.toDto(FindEntity(id).value)
    {
      match repository.FindById(id)
      case Some(e) => Ok(mapper.toDto(e))
      case None => Err(NotFound(NOT_FOUND, id))
    }

    /** `save(dto)`: persists `toEntity(dto)` and answers `toDto` of what the repository saved. */
    method SaveDto(dto: D) returns (r: D)
      requires repository.Valid()
      modifies repository
      ensures repository.Valid()
      ensures var saved := Stored(old(repository.nextId), mapper.toEntity(dto));
              repository.rows == old(repository.rows)[saved.id.value := saved] && r == mapper.toDto(saved)
    {
      var entity := mapper.toEntity(dto);
      var saved := repository.Save(entity);
      r := mapper.toDto(saved);
    }

    /** `save(entity)`: what the repository saved. */
    method SaveEntity(entity: Entity<A>) returns (r: Entity<A>)
      requires repository.Valid()
      modifies repository
      ensures repository.Valid()
      ensures r == Stored(old(repository.nextId), entity)
      ensures repository.rows == old(repository.rows)[r.id.value := r]
    {
      r := repository.Save(entity);
    }

    /** `update(id, dto)`: a missing id raises before anything is mapped or saved; otherwise the
        stored entity's attributes are rewritten by `updateEntity`, it is saved under the same
        id, and `toDto` of it is answered. */
    method Update(id: Id, dto: D) returns (r: Result<D, Error>)
      requires repository.Valid()
      modifies repository
      ensures repository.Valid()
      ensures id !in old(repository.rows) ==>
                r == Err(NotFound(NOT_FOUND, id)) && repository.rows == old(repository.rows)
      ensures id in old(repository.rows) ==>
                var e := Updated(mapper, id, dto, old(repository.rows)[id]);
                repository.rows == old(repository.rows)[id := e] && r == Ok(mapper.toDto(e))
    {
      var found := FindEntity(id);
      if found.Err? {
        return Err(found.error);
      }
      var entity := Entity(found.value.id, mapper.updateEntity(dto, found.value.attrs));
      var saved := repository.Save(entity);
      r := Ok(mapper.toDto(saved));
    }

    /** `delete(id)`: no lookup first, so it never raises, whether or not the id is stored. */
    method Delete(id: Id)
      requires repository.Valid()
      modifies repository
      ensures repository.Valid()
      ensures repository.rows == old(repository.rows) - {id}
    {
      repository.DeleteById(id);
    }
  }

  /** `save(dto)` followed by `find` of the identifier the repository assigned answers the DTO
      that `save` returned. */
  method SaveThenFind<A(==,!new), D>(service: GenericService<A, D>, dto: D) returns (id: Id, saved: D, found: Result<D, Error>)
    requires service.repository.Valid()
    modifies service.repository
    ensures service.repository.Valid()
    ensures var e := Stored(old(service.repository.nextId), service.mapper.toEntity(dto));
            id == e.id.value && saved == service.mapper.toDto(e)
    ensures id in service.repository.rows
    ensures found == Ok(saved)
  {
    var entity := service.mapper.toEntity(dto);
    id := Stored(service.repository.nextId, entity).id.value;
    saved := service.SaveDto(dto);
    found := service.Find(id);
  }

  /** `delete(id)` followed by `find(id)` raises `NotFoundException`, whether or not the id was
      stored before. */
  method DeleteThenFind<A(==,!new), D>(service: GenericService<A, D>, id: Id) returns (found: Result<D, Error>)
    requires service.repository.Valid()
    modifies service.repository
    ensures service.repository.Valid()
    ensures found == Err(NotFound(NOT_FOUND, id))
  {
    service.Delete(id);
    found := service.Find(id);
  }
}
