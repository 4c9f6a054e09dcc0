/** The REST layer: `GenericController`, whose five handlers delegate to a `GenericService`
    and wrap what it answers in a response. */
module Rest {
  import opened Common
  import Crud

  /** HTTP 200 OK, `ResponseEntity.ok(body)` */
  const OK: int := 200
  /** HTTP 204 No Content, `ResponseEntity.noContent().build()` */
  const NO_CONTENT: int := 204
  /** HTTP 404 Not Found, the status `NotFoundException` carries */
  const NOT_FOUND_STATUS: int := 404
  /** HTTP 400 Bad Request, the status of a request body refused by `@Validated` */
  const BAD_REQUEST: int := 400

  datatype Response<T> = Response(status: int, body: Option<T>)

  /** What a handler raises: an exception from the service, which propagates unchanged, or a
      request body refused by bean validation before the handler runs. */
  datatype HandlerError = ServiceError(error: Crud.Error) | InvalidBody

  /** The status the error handling answers for a raised exception. */
  function ErrorStatus(e: HandlerError): (status: int)
    ensures e.ServiceError? ==> status == NOT_FOUND_STATUS
    ensures e.InvalidBody? ==> status == BAD_REQUEST
  {
    match e
    case ServiceError(_) => NOT_FOUND_STATUS
    case InvalidBody => BAD_REQUEST
  }

  /** `ResponseEntity.ok(body)` around a service result, or the exception it raised. */
  function OkOrRaise<T>(r: Result<T, Crud.Error>): (resp: Result<Response<T>, HandlerError>)
    ensures r.Ok? <==> resp.Ok?
    ensures r.Ok? ==> resp.value == Response(OK, Some(r.value))
    ensures r.Err? ==> resp.error == ServiceError(r.error)
  {
    match r
    case Ok(v) => Ok(Response(OK, Some(v)))
    case Err(e) => Err(ServiceError(e))
  }

  class GenericController<A(==,!new), D> {
    const service: Crud.GenericService<A, D>
    /** The constraints `@Validated` checks on a request body. */
    const validator: D -> bool

    constructor (service: Crud.GenericService<A, D>, validator: D -> bool)
      ensures this.service == service && this.validator == validator
    {
      this.service := service;
      this.validator := validator;
    }

    /** `GET /`: `ok(service.findAll())`. */
    function FindAll(): (resp: Response<seq<D>>)
      reads service.repository
      requires service.repository.Valid()
      ensures resp.status == OK && resp.body == Some(service.FindAll())
    {
      Response(OK, Some(service.FindAll()))
    }

    /** `GET /{id}`: `ok(service.find(id))`; the service's `NotFoundException` propagates. */
    function FindById(id: Crud.Id): (resp: Result<Response<D>, HandlerError>)
      reads service.repository
      ensures resp.Err? <==> id !in service.repository.rows
      ensures resp.Err? ==> resp.error == ServiceError(Crud.NotFound(Crud.NOT_FOUND, id))
      ensures resp.Ok? ==> resp.value == Response(OK, Some(service.mapper.toDto(service.repository.rows[id])))
    {
      OkOrRaise(service.Find(id))
    }

    /** `POST /`: a body the validator refuses never reaches the service; otherwise
        `ok(service.save(dto))`. */
    method Save(dto: D) returns (resp: Result<Response<D>, HandlerError>)
      requires service.repository.Valid()
      modifies service.repository
      ensures service.repository.Valid()
      ensures !validator(dto) ==>
                resp == Err(InvalidBody) && service.repository.rows == old(service.repository.rows)
      ensures validator(dto) ==>
                var saved := Crud.Stored(old(service.repository.nextId), service.mapper.toEntity(dto));
                service.repository.rows == old(service.repository.rows)[saved.id.value := saved] &&
                resp == Ok(Response(OK, Some(service.mapper.toDto(saved))))
    {
      if !validator(dto) {
        return Err(InvalidBody);
      }
      var saved := service.SaveDto(dto);
      resp := Ok(Response(OK, Some(saved)));
    }

    /** `PUT /{id}/update`: `ok(service.update(id, dto))`; a missing id propagates as
        `NotFoundException` and changes nothing. */
    method Update(id: Crud.Id, dto: D) returns (resp: Result<Response<D>, HandlerError>)
      requires service.repository.Valid()
      modifies service.repository
      ensures service.repository.Valid()
      ensures id !in old(service.repository.rows) ==>
                resp == Err(ServiceError(Crud.NotFound(Crud.NOT_FOUND, id))) &&
                service.repository.rows == old(service.repository.rows)
      ensures id in old(service.repository.rows) ==>
                var e := Crud.Updated(service.mapper, id, dto, old(service.repository.rows)[id]);
                service.repository.rows == old(service.repository.rows)[id := e] &&
                resp == Ok(Response(OK, Some(service.mapper.toDto(e))))
    {
      var r := service.Update(id, dto);
      resp := OkOrRaise(r);
    }

    /** `DELETE /{id}`: `service.delete(id)`, then 204 with no body, whether or not the id was stored. */
    method Delete(id: Crud.Id) returns (resp: Response<()>)
      requires service.repository.Valid()
      modifies service.repository
      ensures service.repository.Valid()
      ensures service.repository.rows == old(service.repository.rows) - {id}
      ensures resp == Response(NO_CONTENT, None)
    {
      service.Delete(id);
      resp := Response(NO_CONTENT, None);
    }
  }
}
