/** The statements of src/programs/program.repository.ts on one programs row. */
module Programs {
  import opened Wrappers
  import opened Tables

  function Max(a: int, b: int): int {
    if a > b then a else b
  }

  /** CASE WHEN reserved > limit THEN 'OVER_LIMIT' ELSE 'ACTIVE' END */
  function StatusFor(reserved: int, limit: int): ProgramStatus {
    if reserved > limit then ProgramOverLimit else ProgramActive
  }

  /** reserveCapacity; None when the guard of the UPDATE matches no row. */
  function Reserve(p: Program, amount: int): Option<Program> {
    if p.status == ProgramActive && p.limit - p.reserved >= amount then
      Some(p.(reserved := p.reserved + amount, version := p.version + 1))
    else None
  }

  /** releaseCapacity */
  function GiveBack(p: Program, amount: int): Program {
    var reserved := Max(p.reserved - amount, 0);
    p.(reserved := reserved, status := StatusFor(reserved, p.limit), version := p.version + 1)
  }

  /** createFromTreasury */
  function NewProgram(currency: Currency, exponent: int, limit: int, treasuryVersion: int): Program {
    Program(currency, exponent, limit, 0, ProgramActive, 0, Some(treasuryVersion))
  }

  /** applyCapacityUpdate */
  function WithLimit(p: Program, currency: Currency, exponent: int, limit: int, treasuryVersion: int): Program {
    p.(limit := limit, currency := currency, exponent := exponent, treasuryVersion := Some(treasuryVersion),
       status := StatusFor(p.reserved, limit), version := p.version + 1)
  }

  /** applyReconciliation */
  function WithSnapshot(p: Program, currency: Currency, exponent: int, limit: int, reserved: int,
                        treasuryVersion: int): Program {
    p.(limit := limit, reserved := reserved, currency := currency, exponent := exponent,
       treasuryVersion := Some(treasuryVersion), status := StatusFor(reserved, limit), version := p.version + 1)
  }

  /** computeAvailable, src/reservations/reservations.service.ts:214-218. */
  function Available(p: Program): nat {
    if p.reserved > p.limit then 0 else p.limit - p.reserved
  }

  /** The treasury version guard shared by both handlers. */
  predicate Stale(p: Program, treasuryVersion: int) {
    p.treasuryVersion.Some? && treasuryVersion <= p.treasuryVersion.value
  }
}
