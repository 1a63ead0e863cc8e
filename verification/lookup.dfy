/**
 * The lookup client (`consultar_cnpj_com_backoff`): queries the registry for one
 * identifier, retrying with a capped, growing delay until a usable answer comes.
 *
 * The source loops forever while the service keeps failing. The model takes the
 * service's successive answers as a finite script `server`; when the script is
 * used up and every answer was retryable, the client is still retrying.
 */
module Lookup {
  import opened Wrappers
  import opened Response
  import opened Flags

  /** First delay, in seconds (`DELAY_BASE`). */
  const DelayBase := 3
  /** Ceiling of the delay, in seconds (`DELAY_MAX`). */
  const DelayMax := 10
  /** Growth of the delay after each retry, in seconds. */
  const DelayStep := 2

  /** One output row: name, identifier, Simples Nacional flag, MEI flag. */
  datatype Record = Record(nome: Json, cnpj: string, simplesNacional: string, mei: string)

  /** How one lookup call ends. */
  datatype LookupOutcome =
    | Found(record: Record)
    /** An exception other than a request error escaped the call. */
    | Crashed
    /** Every answer of the script was retryable: the call is still waiting. */
    | StillRetrying

  /** What the client does with one answer. */
  datatype Step = Retry | Finish(record: Record) | Crash

  function Min(a: int, b: int): int {
    if a <= b then a else b
  }

  /**
   * `min(delay_atual + 2, DELAY_MAX)`: never above the ceiling, and a delay
   * below the ceiling strictly grows while one at the ceiling stays there.
   */
  function NextDelay(d: int): (r: int)
    ensures r <= DelayMax
    ensures d < DelayMax ==> d < r
    ensures d == DelayMax ==> r == d
  {
    Min(d + DelayStep, DelayMax)
  }

  /** The delay in effect after `k` retries of one call. */
  function DelayAfter(k: nat): int {
    if k == 0 then DelayBase else NextDelay(DelayAfter(k - 1))
  }

  /** The delays slept through by a call that retried `n` times, in order. */
  function Schedule(n: nat): (s: seq<int>)
    ensures |s| == n
  {
    if n == 0 then [] else Schedule(n - 1) + [DelayAfter(n - 1)]
  }

  /**
   * `simples.get("optante")` after `dados.get("simples", {})`. The call fails
   * (None) exactly when the member is present but has no `.get`; a missing
   * member falls back to `{}`, whose "optante" reads as null.
   */
  function Optante(s: Section): (r: Option<Json>)
    ensures r.None? <==> s.NotObject?
    ensures s.Absent? ==> r == Some(JNull)
    ensures s.SectionObject? ==> r == Some(s.optante)
  {
    match s
    case Absent => Some(JNull)
    case SectionObject(o) => Some(o)
    case NotObject => None
  }

  /**
   * The client's reaction to one answer. A network error, an HTTP status other
   * than 200 and a body whose "status" is not "OK" are retried; a usable body
   * gives the record; anything that makes `.get` fail escapes as a crash.
   */
  function Decide(cnpj: string, a: Attempt): (s: Step)
    ensures s.Retry? <==>
      || a.NetworkError?
      || (a.Reply? && a.code != 200)
      || (a.Reply? && a.payload.Unparsable?)
      || (a.Reply? && a.code == 200 && a.payload.Object? && a.payload.status != JStr("OK"))
    ensures s.Finish? ==>
      && a.Reply? && a.code == 200 && a.payload.Object? && a.payload.status == JStr("OK")
      && s.record.cnpj == cnpj
      && s.record.nome == a.payload.nome
      && Optante(a.payload.simples).Some? && Optante(a.payload.simei).Some?
      && s.record.simplesNacional == SimNao(Optante(a.payload.simples).value)
      && s.record.mei == SimNao(Optante(a.payload.simei).value)
    ensures s.Crash? <==> (
      && a.Reply? && a.code == 200
      && (|| a.payload.NotAnObject?
          || (a.payload.Object? && a.payload.status == JStr("OK")
              && (Optante(a.payload.simples).None? || Optante(a.payload.simei).None?))))
  {
    match a
    case NetworkError => Retry
    case Reply(code, payload) =>
      if code != 200 then Retry
      else match payload
        case Unparsable => Retry
        case NotAnObject => Crash
        case Object(status, nome, simples, simei) =>
          if status != JStr("OK") then Retry
          else match (Optante(simples), Optante(simei))
            case (Some(so), Some(se)) => Finish(Record(nome, cnpj, SimNao(so), SimNao(se)))
            case _ => Crash
  }

  /** Number of retryable answers at the head of the script. */
  function Retries(cnpj: string, server: seq<Attempt>): (n: nat)
    ensures n <= |server|
    ensures forall i :: 0 <= i < n ==> Decide(cnpj, server[i]).Retry?
    ensures n < |server| ==> !Decide(cnpj, server[n]).Retry?
  {
    if server == [] || !Decide(cnpj, server[0]).Retry? then 0
    else 1 + Retries(cnpj, server[1..])
  }

  /** The outcome of one lookup call: settled by the first answer that is not retried. */
  function Consult(cnpj: string, server: seq<Attempt>): (o: LookupOutcome)
    ensures o.Found? ==> o.record.cnpj == cnpj && IsFlag(o.record.simplesNacional) && IsFlag(o.record.mei)
    ensures o.StillRetrying? <==> forall i :: 0 <= i < |server| ==> Decide(cnpj, server[i]).Retry?
  {
    var n := Retries(cnpj, server);
    if n == |server| then StillRetrying
    else if Decide(cnpj, server[n]).Finish? then Found(Decide(cnpj, server[n]).record)
    else Crashed
  }

  /** Closed form of the delay: 3 + 2k seconds, capped at 10. */
  lemma {:induction false} DelayAfterClosedForm(k: nat)
    ensures DelayAfter(k) == Min(DelayBase + DelayStep * k, DelayMax)
  {
    if k > 0 {
      DelayAfterClosedForm(k - 1);
    }
  }

  /** The i-th sleep of a call is the delay after i retries. */
  lemma {:induction false} ScheduleAt(n: nat, i: nat)
    requires i < n
    ensures Schedule(n)[i] == DelayAfter(i)
  {
    if i < n - 1 {
      ScheduleAt(n - 1, i);
    }
  }

  /** The delay never decreases from one retry to the next. */
  lemma {:induction false} DelayAfterMonotone(i: nat, j: nat)
    requires i <= j
    ensures DelayAfter(i) <= DelayAfter(j)
  {
    DelayAfterClosedForm(i);
    DelayAfterClosedForm(j);
  }

  /** Every sleep lies in [3, 10] and the sleeps of one call never decrease. */
  lemma ScheduleBoundedAndGrowing(n: nat)
    ensures forall i :: 0 <= i < n ==> DelayBase <= Schedule(n)[i] <= DelayMax
    ensures forall i, j :: 0 <= i <= j < n ==> Schedule(n)[i] <= Schedule(n)[j]
  {
    forall i | 0 <= i < n ensures DelayBase <= Schedule(n)[i] <= DelayMax {
      ScheduleAt(n, i);
      DelayAfterClosedForm(i);
    }
    forall i, j | 0 <= i <= j < n ensures Schedule(n)[i] <= Schedule(n)[j] {
      ScheduleAt(n, i);
      ScheduleAt(n, j);
      DelayAfterMonotone(i, j);
    }
  }

  /** The observed sleeps: 3, 5, 7, 9, then 10 for good. */
  lemma ScheduleExample()
    ensures Schedule(3) == [3, 5, 7]
    ensures Schedule(6) == [3, 5, 7, 9, 10, 10]
  {
  }

  /**
   * There is no retry cap: however many retryable answers precede a usable
   * one, the call sleeps once per retryable answer and then returns the record.
   */
  lemma {:induction false} RetriesThenSuccess(cnpj: string, failures: seq<Attempt>, ok: Attempt)
    requires forall i :: 0 <= i < |failures| ==> Decide(cnpj, failures[i]).Retry?
    requires Decide(cnpj, ok).Finish?
    ensures Retries(cnpj, failures + [ok]) == |failures|
    ensures Consult(cnpj, failures + [ok]) == Found(Decide(cnpj, ok).record)
  {
    var server := failures + [ok];
    assert server[|failures|] == ok;
  }

  /**
   * `consultar_cnpj_com_backoff`. Returns the outcome and the delays handed to
   * `time.sleep`, in order.
   */
  method ConsultWithBackoff(cnpj: string, server: seq<Attempt>) returns (r: LookupOutcome, slept: seq<int>)
    ensures r == Consult(cnpj, server)
    ensures slept == Schedule(Retries(cnpj, server))
  {
    var delay := DelayBase;
    slept := [];
    var i := 0;
    while i < |server|
      invariant 0 <= i <= |server|
      invariant forall k :: 0 <= k < i ==> Decide(cnpj, server[k]).Retry?
      invariant slept == Schedule(i)
      invariant delay == DelayAfter(i)
    {
      match server[i] {
        case NetworkError =>
          // requests.exceptions.RequestException
          slept := slept + [delay];
          delay := NextDelay(delay);
        case Reply(code, payload) =>
          if code != 200 {
            slept := slept + [delay];
            delay := NextDelay(delay);
          } else {
            match payload
            case Unparsable =>
              // the decoding error is a RequestException as well
              slept := slept + [delay];
              delay := NextDelay(delay);
            case NotAnObject =>
              return Crashed, slept;
            case Object(status, nome, simples, simei) =>
              if status != JStr("OK") {
                slept := slept + [delay];
                delay := NextDelay(delay);
              } else {
                var so := Optante(simples);
                var se := Optante(simei);
                if so.None? || se.None? {
                  return Crashed, slept;
                }
                return Found(Record(nome, cnpj, SimNao(so.value), SimNao(se.value))), slept;
              }
          }
      }
      i := i + 1;
    }
    r := StillRetrying;
  }
}
