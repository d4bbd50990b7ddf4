/** How a refiner goes through the fields of a raw row: each is parsed on its
    own, the errors that are caught become rejections in a shared list, and the
    others escape. */
module Collecting {
  import opened Domain
  import opened Tables
  import opened Parsing

  /** One field parser's end: a value, a rejection, or an escaping exception. */
  datatype Parsed<+T> = Good(value: T) | Bad(reason: Reason, field: Field) | Escapes(error: Error)
  {
    function Fault(): Parsed<()> {
      match this
      case Good(_) => Good(())
      case Bad(reason, field) => Bad(reason, field)
      case Escapes(error) => Escapes(error)
    }
  }

  /** `except (ValueError, KeyError, TypeError)`, perhaps with DomainError. */
  function Guard<T>(a: Attempt<T>, domainToo: bool, field: Field): Parsed<T> {
    match a
    case Done(v) => Good(v)
    case Raise(e) =>
      if e in {KeyErr, TypeErr, ValueErr} || (domainToo && e.IsDomain()) then Bad(InvalidFormat, field)
      else Escapes(e.Kind())
  }

  /** `except KeyError` and `except ValueError` apart. */
  function GuardEnum<T>(a: Attempt<T>, field: Field): Parsed<T> {
    match a
    case Done(v) => Good(v)
    case Raise(KeyErr) => Bad(MissingRequiredField, field)
    case Raise(ValueErr) => Bad(InvalidEnumValue, field)
    case Raise(e) => Escapes(e.Kind())
  }

  /** `except KeyError` around `bool(row[field])`. */
  function ParseBool(row: RawRow, key: Field): Parsed<bool> {
    if key in row then Good(Truthy(row[key])) else Bad(MissingRequiredField, key)
  }

  /* ---- collecting ---- */

  /** What all rejections of one raw row have in common. */
  datatype Origin = Origin(taskId: string, stage: Stage, source: SourceId)

  function RejectionOf(at: Origin, p: Parsed<()>): Rejection
    requires p.Bad?
  {
    Rejection(at.taskId, at.stage, p.reason, at.source, p.field, Message)
  }

  /** `row.get(key, "?")`, printed. */
  function SourceAt(row: RawRow, key: Field): SourceId {
    if key in row then Printed(row[key]) else Unknown
  }

  /** A rejection must not have an empty source id. */
  predicate IsEmptySource(source: SourceId) {
    source == Printed(Text(""))
  }

  /** Where this parser ends the whole refinement with an exception. */
  predicate Stops(source: SourceId, p: Parsed<()>) {
    p.Escapes? || (p.Bad? && IsEmptySource(source))
  }

  function ErrorOf(p: Parsed<()>): Error
    requires p.Escapes? || p.Bad?
  {
    if p.Escapes? then p.error else DomainError
  }

  /** One rejection per failing parser, in order. */
  function Reports(at: Origin, ps: seq<Parsed<()>>): seq<Rejection> {
    if ps == [] then []
    else
      var n := |ps| - 1;
      Reports(at, ps[..n]) +
      (if ps[n].Bad? then [RejectionOf(at, ps[n])] else [])
  }

  /** The first parser that stops, if there is one. */
  function FirstStop(source: SourceId, ps: seq<Parsed<()>>): Option<Error> {
    if ps == [] then None
    else
      var n := |ps| - 1;
      var before := FirstStop(source, ps[..n]);
      if before.Some? then before else if Stops(source, ps[n]) then Some(ErrorOf(ps[n])) else None
  }

  lemma {:induction false} NothingStops(source: SourceId, ps: seq<Parsed<()>>)
    ensures FirstStop(source, ps) == None <==> forall i :: 0 <= i < |ps| ==> !Stops(source, ps[i])
    decreases |ps|
  {
    if ps == [] {
    } else {
      var n := |ps| - 1;
      NothingStops(source, ps[..n]);
      assert forall i :: 0 <= i < n ==> ps[..n][i] == ps[i];
    }
  }

  lemma {:induction false} StopsEarly(source: SourceId, ps: seq<Parsed<()>>, k: nat)
    requires k <= |ps| && FirstStop(source, ps[..k]).Some?
    ensures FirstStop(source, ps) == FirstStop(source, ps[..k])
    decreases |ps|
  {
    if k == |ps| {
      assert ps[..k] == ps;
    } else {
      assert ps[..|ps| - 1][..k] == ps[..k];
      StopsEarly(source, ps[..|ps| - 1], k);
    }
  }

  lemma {:induction false} NothingReported(at: Origin, ps: seq<Parsed<()>>)
    ensures Reports(at, ps) == [] <==> forall i :: 0 <= i < |ps| ==> !ps[i].Bad?
    ensures forall r :: r in Reports(at, ps) ==>
      r.taskId == at.taskId && r.stage == at.stage && r.source == at.source && r.detail == Message
    decreases |ps|
  {
    if ps == [] {
    } else {
      var n := |ps| - 1;
      NothingReported(at, ps[..n]);
      assert forall i :: 0 <= i < n ==> ps[..n][i] == ps[i];
    }
  }

  /** Before the parser `k` of `ps`, all earlier ones having been noted. */
  ghost predicate Noted(at: Origin, ps: seq<Parsed<()>>, k: nat, list: seq<Rejection>) {
    k <= |ps| && FirstStop(at.source, ps[..k]) == None && list == Reports(at, ps[..k])
  }

  lemma NothingNoted(at: Origin, ps: seq<Parsed<()>>)
    ensures Noted(at, ps, 0, [])
  {
  }

  lemma NoteNext(at: Origin, ps: seq<Parsed<()>>, k: nat, list: seq<Rejection>)
    requires Noted(at, ps, k, list) && k < |ps|
    ensures Stops(at.source, ps[k]) ==> FirstStop(at.source, ps) == Some(ErrorOf(ps[k]))
    ensures !Stops(at.source, ps[k]) ==>
      Noted(at, ps, k + 1, if ps[k].Bad? then list + [RejectionOf(at, ps[k])] else list)
  {
    assert ps[..k + 1][..k] == ps[..k];
    if Stops(at.source, ps[k]) {
      StopsEarly(at.source, ps, k + 1);
    }
  }

  lemma AllNoted(at: Origin, ps: seq<Parsed<()>>, list: seq<Rejection>)
    requires Noted(at, ps, |ps|, list)
    ensures FirstStop(at.source, ps) == None && list == Reports(at, ps)
    ensures list == [] <==> forall i :: 0 <= i < |ps| ==> ps[i].Good?
  {
    assert ps[..|ps|] == ps;
    NothingStops(at.source, ps);
    NothingReported(at, ps);
  }

  /** The list that one row's parsers share. */
  class Rejections {
    var list: seq<Rejection>

    constructor ()
      ensures list == []
    {
      list := [];
    }

    /** The `except` part of the parser `k` of `ps`: append, or let the exception
        through. */
    method Note<T>(p: Parsed<T>, at: Origin, ghost ps: seq<Parsed<()>>, ghost k: nat) returns (r: Try<Option<T>>)
      requires Noted(at, ps, k, list) && k < |ps| && ps[k] == p.Fault()
      modifies this
      ensures r.Threw? ==> FirstStop(at.source, ps) == Some(r.error)
      ensures r.Ok? ==> Noted(at, ps, k + 1, list) && r.value == if p.Good? then Some(p.value) else None
    {
      NoteNext(at, ps, k, list);
      hide Noted, FirstStop;
      match p {
        case Good(v) => r := Ok(Some(v));
        case Bad(reason, field) =>
          if IsEmptySource(at.source) {
            return Threw(DomainError);
          }
          list := list + [Rejection(at.taskId, at.stage, reason, at.source, field, Message)];
          r := Ok(None);
        case Escapes(e) => r := Threw(e);
      }
    }
  }
}
