/** An I2C peripheral seen as a byte-addressed register file.

    The bus keeps two things: the log of every transaction issued, in order,
    and the register contents. A block write at `reg` stores its bytes at
    `reg`, `reg + 1`, ... (the controller's auto-increment mode), and a block
    read fetches consecutive registers the same way. A register nothing has
    written reads as 0. */
module RegisterBus {
  import opened Errors

  type Byte = b: int | 0 <= b < 0x100

  datatype Transaction =
    | Write(reg: int, data: seq<Byte>)
    | Read(reg: int, length: nat)
    | Pause(micros: nat)

  type Registers = map<int, Byte>

  datatype Bus = Bus(log: seq<Transaction>, regs: Registers)

  /** What an operation leaves behind: the bus after it, and either its
      value or the error it raised. A raised error keeps the bus as it was
      when the error fired, so writes issued before the failure remain. */
  datatype Outcome<+T> = Done(bus: Bus, value: T) | Raised(bus: Bus, error: Error)

  function Load(regs: Registers, a: int): Byte {
    if a in regs then regs[a] else 0
  }

  /** The `n` registers starting at `reg`. */
  function Fetch(regs: Registers, reg: int, n: nat): (data: seq<Byte>)
    ensures |data| == n
    ensures forall k :: 0 <= k < n ==> data[k] == Load(regs, reg + k)
  {
    seq<Byte>(n, k requires 0 <= k < n => Load(regs, reg + k))
  }

  /** The register file after `data` is written from `reg` upward. */
  function Store(regs: Registers, reg: int, data: seq<Byte>): (m: Registers)
    ensures forall a :: reg <= a < reg + |data| ==> Load(m, a) == data[a - reg]
    ensures forall a :: !(reg <= a < reg + |data|) ==> Load(m, a) == Load(regs, a)
    decreases |data|
  {
    if |data| == 0 then regs
    else Store(regs[reg := data[0]], reg + 1, data[1..])
  }

  /** The bus's block write (`writeto_mem`). */
  function WriteTo(bus: Bus, reg: int, data: seq<Byte>): (b: Bus)
    ensures b.log == bus.log + [Write(reg, data)]
    ensures Fetch(b.regs, reg, |data|) == data
    ensures forall a :: !(reg <= a < reg + |data|) ==> Load(b.regs, a) == Load(bus.regs, a)
  {
    Bus(bus.log + [Write(reg, data)], Store(bus.regs, reg, data))
  }

  /** The bus's block read (`readfrom_mem`): the bus with the read logged,
      and the bytes read. */
  function ReadFrom(bus: Bus, reg: int, n: nat): (r: (Bus, seq<Byte>))
    ensures r.0.log == bus.log + [Read(reg, n)] && r.0.regs == bus.regs
    ensures r.1 == Fetch(bus.regs, reg, n)
  {
    (Bus(bus.log + [Read(reg, n)], bus.regs), Fetch(bus.regs, reg, n))
  }

  /** A blocking delay, recorded as a marker in the log. */
  function Sleep(bus: Bus, micros: nat): Bus {
    Bus(bus.log + [Pause(micros)], bus.regs)
  }

  /** A window of registers written earlier keeps its bytes across a later
      write that lies entirely outside it. */
  lemma FetchUnaffected(regs: Registers, reg: int, n: nat, m: Registers)
    requires forall a :: reg <= a < reg + n ==> Load(m, a) == Load(regs, a)
    ensures Fetch(m, reg, n) == Fetch(regs, reg, n)
  {
    var x, y := Fetch(m, reg, n), Fetch(regs, reg, n);
    forall k | 0 <= k < n
      ensures x[k] == y[k]
    {
      assert Load(m, reg + k) == Load(regs, reg + k);
    }
  }
}
