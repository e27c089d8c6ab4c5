/** The camera's HTTP interface as the phase loop uses it (control/camera_api.cpp). */
module CameraClient {
  import opened Prelude

  datatype Band = Band(lo: int, hi: int)
  datatype Phase = Phase(trim: int, band: Option<Band>)

  /** What comes back: nothing, a JSON envelope, or a status code without an envelope. */
  datatype Answer = NoAnswer | Envelope(ok: bool, error: string, phase: Option<Phase>) | Foreign(code: int)

  datatype Reply = Reply(ok: bool, http: int, error: string, phase: Option<Phase>)

  /** A camera: it applies a command or refuses it, and says the truth about itself, but answers can be lost. */
  class Camera {
    var json: bool
    var trim: int
    var band: Band

    constructor (json: bool, trim: int, band: Band)
      ensures this.json == json && this.trim == trim && this.band == band
    {
      this.json, this.trim, this.band := json, trim, band;
    }

    /** A report of the state, of the state without its limits, or none. */
    method Report() returns (p: Option<Phase>)
      ensures p.Some? ==> p.value.trim == trim && (p.value.band.Some? ==> p.value.band.value == band)
    {
      var silent, bare := *, *;
      p := if silent then None else Some(Phase(trim, if bare then None else Some(band)));
    }

    /** GET /api/v1/phase?millihz=. */
    method WritePhase(mhz: int) returns (a: Answer)
      modifies this`trim
      ensures a.Envelope? ==> (a.ok ==> trim == mhz) && (!a.ok ==> trim == old(trim))
      ensures a.Envelope? && a.phase.Some? ==> a.phase.value.trim == trim
      ensures a.Envelope? && a.phase.Some? && a.phase.value.band.Some? ==> a.phase.value.band.value == band
      ensures trim == old(trim) || (trim == mhz && band.lo <= mhz <= band.hi)
      ensures a.Foreign? ==> a.code != 0
    {
      var reached, lost, fails, garbled, code: int := *, *, *, *, *;
      if !reached { return NoAnswer; }
      var ok := json && band.lo <= mhz <= band.hi && !fails;
      if ok { trim := mhz; }
      if lost || code == 0 { return NoAnswer; }
      if !json || garbled { return Foreign(code); }
      var p := Report();
      a := Envelope(ok, if ok then "" else "out_of_range", p);
    }

    /** GET /api/v1/set?video0.fpsTrimMilliHz=: status 200 exactly when the command was applied. */
    method WriteLegacy(mhz: int) returns (code: int)
      modifies this`trim
      ensures code == 200 ==> trim == mhz
      ensures code != 200 && code != 0 ==> trim == old(trim)
    {
      var reached, applies, lost, other: int := *, *, *, *;
      if !reached { return 0; }
      if applies { trim := mhz; }
      if lost { return 0; }
      code := if applies then 200 else if other == 200 then 404 else other;
    }
  }

  datatype Dialect = Auto | New | Legacy

  class CameraApi {
    var host: string
    var dialect: Dialect
    var requests: nat
    var failures: nat

    constructor (host: string)
      ensures this.host == host && dialect == Auto && requests == 0 && failures == 0
    {
      this.host, dialect, requests, failures := host, Auto, 0, 0;
    }

    method SetHost(host: string)
      modifies this`host, this`dialect
      ensures this.host == host && dialect == Auto
    {
      this.host, dialect := host, Auto;
    }

    method NoteLegacy()
      modifies this`dialect
      ensures dialect == Legacy
    {
      if dialect != Legacy { dialect := Legacy; }
    }

    method LockNew()
      modifies this`dialect
      ensures dialect == if old(dialect) == Auto then New else old(dialect)
    {
      if dialect == Auto { dialect := New; }
    }

    /** The reply to a request of the new contract, and its account. */
    method Call(a: Answer) returns (rep: Reply)
      modifies this`requests, this`failures
      ensures requests == old(requests) + 1 && failures == old(failures) + if rep.ok then 0 else 1
      ensures match a
              case NoAnswer => rep == Reply(false, 0, "no_response", None)
              case Foreign(code) => rep == Reply(false, code, "bad_envelope", None)
              case Envelope(ok, error, phase) => rep == Reply(ok, 200, error, phase)
    {
      requests := requests + 1;
      match a {
        case NoAnswer =>
          failures := failures + 1;
          rep := Reply(false, 0, "no_response", None);
        case Foreign(code) =>
          failures := failures + 1;
          rep := Reply(false, code, "bad_envelope", None);
        case Envelope(ok, error, phase) =>
          rep := Reply(ok, 200, error, phase);
          if !ok { failures := failures + 1; }
      }
    }

    /** A reply that is believed is true of the camera. */
    ghost predicate Truthful(rep: Reply, cam: Camera, mhz: int)
      reads cam
    {
      && (rep.ok ==> cam.trim == mhz)
      && (rep.phase.Some? ==> rep.phase.value.trim == cam.trim)
      && (rep.phase.Some? && rep.phase.value.band.Some? ==> rep.phase.value.band.value == cam.band)
    }

    method SetLegacy(mhz: int, cam: Camera) returns (rep: Reply)
      modifies this`requests, this`failures, cam`trim
      ensures Truthful(rep, cam, mhz) && rep.phase == None && (rep.ok <==> rep.http == 200)
      ensures requests == old(requests) + 1 && failures == old(failures) + if rep.ok then 0 else 1
    {
      requests := requests + 1;
      var code := cam.WriteLegacy(mhz);
      rep := Reply(code == 200, code, "", None);
      if !rep.ok {
        failures := failures + 1;
        rep := rep.(error := if code == 0 then "unreachable" else "legacy_http");
      }
    }

    /** Writes the trim, by the old contract once the camera is known to be old; a camera that turns out to be old is written
        to again by that contract at once. */
    method SetPhase(mhz: int, cam: Camera) returns (rep: Reply)
      modifies this`dialect, this`requests, this`failures, cam`trim
      ensures Truthful(rep, cam, mhz)
      ensures old(dialect) == Legacy ==> dialect == Legacy && rep.phase == None
      ensures dialect == Auto ==> old(dialect) == Auto && !rep.ok && rep.phase == None
      ensures requests - old(requests) >= failures - old(failures) >= if rep.ok then 0 else 1
      ensures requests - old(requests) == if old(dialect) != Legacy && dialect == Legacy then 2 else 1
      ensures dialect == Legacy ==> rep.phase == None && (rep.ok <==> rep.http == 200)
    {
      if dialect == Legacy { rep := SetLegacy(mhz, cam); return; }
      var a := cam.WritePhase(mhz);
      rep := Call(a);
      if rep.error == "bad_envelope" {
        NoteLegacy();
        rep := SetLegacy(mhz, cam);
        return;
      }
      if rep.http != 0 { LockNew(); }
    }

    /** A reading of the new contract: phase, status or key frame. A camera known to be old is not asked. */
    method Query(a: Answer) returns (rep: Reply)
      modifies this`dialect, this`requests, this`failures
      ensures old(dialect) == Legacy ==> dialect == Legacy && requests == old(requests) && failures == old(failures) && !rep.ok
      ensures old(dialect) != Legacy ==> requests == old(requests) + 1
      ensures old(dialect) == New ==> dialect != Auto
      ensures old(dialect) != Legacy && dialect == Legacy ==> !rep.ok && rep.phase.None?
      ensures rep.phase.Some? ==> a.Envelope? && rep.phase == a.phase
    {
      if dialect == Legacy { return Reply(false, 0, "legacy_no_read", None); }
      rep := Call(a);
      if rep.error == "bad_envelope" {
        NoteLegacy();
        rep := Reply(false, 0, "legacy_no_read", None);
        return;
      }
      if rep.http != 0 { LockNew(); }
    }
  }
}
