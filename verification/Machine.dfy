/** The two instructions a patch is made of, as the processor runs them; opcodes as in the instruction set reference. */
module Machine {
  import opened Bytes

  /** Where the processor is, and its eight registers that need no prefix, rax or eax first. */
  datatype Cpu = Cpu(pc: nat, regs: seq<nat>)

  /** A number as it lies in memory, least significant byte first. */
  function Dword(mem: seq<byte>, at: nat): nat
    requires at + 4 <= |mem|
  {
    mem[at] as nat + 0x100 * mem[at + 1] as nat + 0x1_0000 * mem[at + 2] as nat + 0x100_0000 * mem[at + 3] as nat
  }

  function Qword(mem: seq<byte>, at: nat): nat
    requires at + 8 <= |mem|
  {
    Dword(mem, at) + 0x1_0000_0000 * Dword(mem, at + 4)
  }

  predicate Has(mem: seq<byte>, at: nat, n: nat) {
    at + n <= |mem|
  }

  /** Whether this byte is an opcode that names a register, and which. */
  function Register(b: byte, opcode: nat): Option<nat> {
    if opcode <= b as nat < opcode + 8 then Some(b as nat - opcode) else None
  }

  /** `mov r, imm` takes 48 b8+r and eight bytes in 64-bit mode, and b8+r and four bytes in 32-bit mode; `jmp r` is
      ff e0+r in both. Other instructions are of no interest here. */
  function Run1(wide: bool, mem: seq<byte>, cpu: Cpu): Option<Cpu>
    requires |cpu.regs| == 8
  {
    var pc := cpu.pc;
    if wide && Has(mem, pc, 10) && mem[pc] == 0x48 && Register(mem[pc + 1], 0xb8).Some? then
      Some(Cpu(pc + 10, cpu.regs[Register(mem[pc + 1], 0xb8).value := Qword(mem, pc + 2)]))
    else if !wide && Has(mem, pc, 5) && Register(mem[pc], 0xb8).Some? then
      Some(Cpu(pc + 5, cpu.regs[Register(mem[pc], 0xb8).value := Dword(mem, pc + 1)]))
    else if Has(mem, pc, 2) && mem[pc] == 0xff && Register(mem[pc + 1], 0xe0).Some? then
      Some(cpu.(pc := cpu.regs[Register(mem[pc + 1], 0xe0).value]))
    else None
  }

  /** From this address, whatever the registers hold, two instructions lead to the target, and leave all registers
      but the first alone. */
  ghost predicate Arrives(wide: bool, mem: seq<byte>, at: nat, target: nat) {
    forall regs: seq<nat> | |regs| == 8 ::
      var first := Run1(wide, mem, Cpu(at, regs));
      first.Some? && Run1(wide, mem, first.value) == Some(Cpu(target, regs[0 := target]))
  }
}
