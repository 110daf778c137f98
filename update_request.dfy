/**
 Validation of an order-update request (UpdatePedidoRequest). Only `estado` and
 `total` have rules, so only they reach the controller; both may be left out, but
 when sent they must be non-null and valid.
 */
module UpdateRequest {
  import opened Domain
  import opened Input

  /** The request body as sent. `userId` stands for any key without a rule (an owner
      change, new lines, ...): it is accepted and then dropped. `total` is in cents. */
  datatype RawUpdate = RawUpdate(estado: Field<string>, total: Field<int>, userId: Field<UserId>)

  datatype Violation = EstadoRequired | EstadoNotAllowed | TotalRequired | TotalBelowMinimum

  /** The validated fields the controller may write. */
  datatype UpdateData = UpdateData(estado: Option<Estado>, total: Option<nat>)

  datatype Validation = Validated(data: UpdateData) | Rejected(errors: seq<Violation>)

  /** `sometimes|required|string|in:...` on the normalised field: absent is fine; null
      (sent as null, or as an empty or blank string) is required-missing. */
  function EstadoViolations(f: Field<string>): seq<Violation>
  {
    if f.Absent? then []
    else if f.Null? then [EstadoRequired]
    else if ParseEstado(f.value).None? then [EstadoNotAllowed]
    else []
  }

  /** `sometimes|required|numeric|min:0.01`: absent is fine; null is required-missing;
      a value below one cent is too small. */
  function TotalViolations(f: Field<int>): seq<Violation>
  {
    if f.Absent? then []
    else if f.Null? then [TotalRequired]
    else if f.value < 1 then [TotalBelowMinimum]
    else []
  }

  /** Validation of the request after the global input normalisation. */
  function ValidateUpdate(r: RawUpdate): Validation
  {
    var estado := Normalize(r.estado);
    var errors := EstadoViolations(estado) + TotalViolations(r.total);
    if errors != [] then Rejected(errors)
    else Validated(UpdateData(
      if estado.Present? then ParseEstado(estado.value) else None,
      if r.total.Present? then Some(r.total.value) else None))
  }

  /** A request passes exactly when each of `estado` and `total` is either left out or
      sent with a valid value, the status judged after trimming; what passes carries the
      sent values, with the status never procesando and the total at least one cent. */
  lemma ValidateUpdateIff(r: RawUpdate)
    ensures ValidateUpdate(r).Validated? <==>
            (r.estado.Absent? || (r.estado.Present? && ParseEstado(Trim(r.estado.value)).Some?)) &&
            (r.total.Absent? || (r.total.Present? && r.total.value >= 1))
    ensures ValidateUpdate(r).Validated? ==>
            var d := ValidateUpdate(r).data;
            (d.estado.Some? <==> r.estado.Present?) &&
            (d.estado.Some? ==> d.estado.value != Procesando && EstadoName(d.estado.value) == Trim(r.estado.value)) &&
            (d.total.Some? <==> r.total.Present?) &&
            (d.total.Some? ==> d.total.value >= 1 && d.total.value == r.total.value)
  {
    if r.estado.Present? && ParseEstado(Trim(r.estado.value)).Some? {
      ParseEstadoRoundTrip(ParseEstado(Trim(r.estado.value)).value, Trim(r.estado.value));
    }
  }

  /** A padded status is accepted as the status it names; an empty one is missing. */
  lemma EstadoNormalisedFirst()
    ensures ValidateUpdate(RawUpdate(Present(" enviado "), Absent, Absent)) == Validated(UpdateData(Some(Enviado), None))
    ensures ValidateUpdate(RawUpdate(Present(""), Absent, Absent)) == Rejected([EstadoRequired])
  {
    assert TrimStart(" enviado ") == TrimStart("enviado ") == "enviado ";
    assert TrimEnd("enviado ") == TrimEnd("enviado") == "enviado";
  }

  /** An empty request is valid and asks to change nothing. */
  lemma EmptyUpdateIsValid()
    ensures ValidateUpdate(RawUpdate(Absent, Absent, Absent)) == Validated(UpdateData(None, None))
  {
  }

  /** Keys without a rule never influence validation nor reach the controller. */
  lemma UnvalidatedKeysDropped(r: RawUpdate, other: Field<UserId>)
    ensures ValidateUpdate(r.(userId := other)) == ValidateUpdate(r)
  {
  }
}
