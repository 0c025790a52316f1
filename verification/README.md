# Virtual machine

A Dafny model of a small multi-core virtual machine and its operating system, with proofs. The machine has 32-bit
registers and instruction words, one byte-addressed physical memory shared by all processes, a preemptive scheduler over
any number of cores, and a two-pass assembler. The model follows the code branch by branch, in five layers.

* **Memory** (`Words`, `PhysicalMemory`, `ProcessMemory`, `Loader`). Physical memory is an array written in loops; word
  reads and writes are little-endian byte loops. Isolation, immutable code and the stack discipline are frame theorems.
* **Instructions** (`Encoding`, `Machine`, `InstructionSet`, `StackMachine`, `Cpu`). `Machine.Step` is one fetch, decode
  and execute over registers and memory. `InstructionSet` says in plain arithmetic and bits what that does for every
  instruction. The mutable register file, context, control block and handlers of `Cpu` are proved to do it.
  `StackMachine` is the same machine over an abstract stack and data segment.
* **Scheduling** (`Scheduler`, `CoreLoop`, `VirtualOs`, `Protocol`, `Ownership`, `OwnershipSteps`, `Runs`, `Waiting`,
  `Progress`, `Shutdown`). The scheduler's critical sections are methods on mutable objects, proved against functions of
  a value. `Protocol` is a transition system over all cores and the thread in run(): a step is one critical section, one test of
  a stop flag, or one unlocked write that other threads can see, together with what the core does to the process it
  holds. Each condition variable's test and sleep are separate, so that wake-ups can be lost where the code allows it.
  `CoreLoop` is the loop of a single core on the objects.
* **Assembler** (`Lexer`, `Syntax`, `Grammar`, `Assembler`, `Parser`, `Printer`, `SourceLanguage`). The lexer is a cursor
  with peek, mark and restore over a fixed token sequence. The grammar looks at no label or symbol, so both passes see
  the same statements; `Parser` is the recursive descent that interleaves both. `Grammar` and `Printer` (module
  `Printing`) say, without a parser or lexer, which tokens and characters spell which statements, and that exactly those
  are read; `SourceLanguage` gives the words and bytes that come out, in numbers.
* **Composition** (`System`, `Independence`, `Sums`, `Termination`, `SourceSemantics`, `Simulation`, `EndToEnd`,
  `Factorial`, `FactorialRun`, `HoldRun`, `Startup`). The protocol together with registers and memory is shown to run each process as
  it runs alone, and to come to shutdown when every process ends; `HoldRun` and `Startup` tie the objects' holds and
  loads to its runs and its start. `SourceSemantics` gives the source language a meaning of its own,
  over names, full 16-bit numbers and sixteen equal registers; the loaded words simulate it. The two meet in
  `EndToEnd.MachineRunsSource`, and the recursive factorial is carried through all of it.

An exception is `None`, `false` or the outcome `Throw`; one that leaves a core's thread crashes the machine for good.
Where the code and its documentation differ, the model follows the code:

* `docs/ARCHITECTURE.md:67` promises addresses up to 4095; the immediate is sign-extended, so 2047 is the limit.
* r15 as the second operand field means "immediate" (`include/vm/isa/encode.hpp:7`), so it cannot be a right-hand or push
  operand; `SourceSemantics.MeaningExactly` says exactly where that matters.
* `docs/ISA.md:57` shows `call yield` without an operand; the parser always wants a comma and an operand, and reads `nop`
  as a two-operand instruction.
* `docs/ISA.md:63` puts the initial stack pointer at the top of the stack; it starts one word below, on a zero word that
  can be popped.
* jg, jge, jl and jle ignore the overflow flag.
* stop() clears the scheduler's flag without the mutex, so any machine with a core whose processes all end can hang in
  shutdown (`Termination.MachineCanHang`); `Shutdown.HangExactly` says from exactly which states.

## Model

| member | source | states |
|---|---|---|
| EndToEnd.MachineRunsSource | src/vm/cpu/virtual_cpu_core.cpp:44-141 | for any list of sound source programs loaded side by side, any number of cores, any quantum and any interleaving: at every moment each process has the registers, stack, data and output that its source has after as many source steps |
| EndToEnd.CompleteMachineRun | src/vm/os/virtual_os.cpp:57-81 | when run() has seen every process halt, each source program has ended, after exactly the instructions its process executed |
| EndToEnd.MachineNeverCrashes | src/vm/cpu/virtual_cpu_core.cpp:107-141 | sound sources never make a thread of the machine end with an exception |
| FactorialRun.FactorialOnMachine | examples/subroutine.asm:3-24 | whatever runs beside it, the factorial process of a complete machine run has printed exactly n! modulo 2^32, or nothing when n > 512, for every 12-bit constant n |
| FactorialRun.FactorialSound | examples/subroutine.asm:1-24 | the program meets the premises of the machine theorems for every 12-bit constant, the overflowing ones included |
| FactorialRun.FaithfulExactly | examples/subroutine.asm:4 | every word of the program means what its instruction says if and only if the constant is a 12-bit number |
| FactorialRun.FromText | examples/subroutine.asm:1-24 | any text that spells the program's tokens, with any blanks, blank lines and comments before, between and after the statements, is assembled to the same program |
| Independence.ScheduleIndependence | src/vm/cpu/virtual_cpu_core.cpp:44-141 | after any actions of any number of cores with any quantum, registers, flags, pc, sp, region bytes and printed words of a process equal those of as many solo steps |
| Independence.CompleteRun | src/vm/cpu/virtual_cpu_core.cpp:44-105 | no process executes past the end of its solo run, a Halted one has executed exactly that far, and stopping means all have |
| Independence.CompleteRunsAgree | src/vm/cpu/virtual_cpu_core.cpp:44-105 | two complete runs on different numbers of cores with different quanta leave every process with the same registers, memory and output |
| Independence.CrashIsOwnFault | src/vm/cpu/virtual_cpu_core.cpp:107-141 | a crash of the machine is one that some process has alone, at the same instruction |
| Independence.ReachNoCrash | src/vm/cpu/virtual_cpu_core.cpp:107-141 | if no process throws or leaves the model alone, no interleaving crashes |
| Independence.MachineNeverStuck | src/vm/os/preemptive_scheduler.cpp:24-44 | with at least one core, the machine can go on from every state before shutdown |
| Termination.ShutdownInevitable | src/vm/os/virtual_os.cpp:57-81 | when every process ends alone, every run of the machine with more steps than an explicit bound - linear in the instructions and the cores - and five more for each spurious wake-up in it has come to shutdown, under every interleaving |
| Termination.SpuriousClimbs | src/vm/os/preemptive_scheduler.cpp:24-31 | a spurious wake-up adds at most four to that weight |
| Termination.FinalMeansStopped | src/vm/os/virtual_os.cpp:57-96 | when no process faults alone, every run of a machine with a core that nothing but a spurious wake-up can extend has come to shutdown: run() has returned or waits in join() for a core whose wake-up was lost |
| Termination.MachineCanHang | src/vm/os/preemptive_scheduler.cpp:60-63 | whatever its programs, a machine with a core whose processes all end has a run, without any spurious wake-up, after which run() waits in join() for ever |
| Termination.CompleteRunExists | src/vm/os/virtual_os.cpp:57-81 | with at least one core a run without spurious wake-ups exists to the point where stop() is about to clear the flag, with some core awake |
| Termination.QuietDescends | src/vm/cpu/virtual_cpu_core.cpp:44-105 | every step before shutdown, other than an instruction or a spurious wake-up, makes a weight of queue, program points and run() smaller: sleeping and waking cannot go on for ever |
| EndToEnd.SourcesShutDown | src/vm/os/virtual_os.cpp:57-81 | when every source program ends, every run of the machine that is longer than the bound, and five steps more for each spurious wake-up, has come to shutdown |
| EndToEnd.FinalRun | src/vm/os/virtual_os.cpp:57-96 | whether the sources end or not, a run of a machine with a core that cannot be extended has come to shutdown, has returned from run() or hangs in join(), and each source has ended after exactly the executed count |
| EndToEnd.SourcesCanHang | src/vm/os/preemptive_scheduler.cpp:60-63 | even when every source ends, some run without spurious wake-ups never returns from run() |
| FactorialRun.FactorialsPrint | examples/subroutine.asm:1-24 | any number of factorial processes with any 12-bit constants up to 512 on any number of cores: each has printed exactly its n! modulo 2^32 in every run that cannot be extended, if there is a core, and in every run longer than some bound and five steps for each spurious wake-up |
| FactorialRun.ManyTogether | examples/subroutine.asm:1-24 | any number of factorial programs can be loaded side by side while memory lasts, and meet the premises |
| Runs.NullMeansStopped | src/vm/os/preemptive_scheduler.cpp:24-31 | in every reachable state a core that acquireProcess gave no process finds the scheduler stopped |
| OwnershipSteps.StepKeeps | src/vm/cpu/virtual_cpu_core.cpp:44-152 | every step of cores, scheduler and run() keeps the ownership, queue, sleeper, time-slice and shutdown invariants |
| Runs.BootInv | src/vm/os/virtual_os.cpp:36-67 | they hold when run() is entered after any number of loads |
| Runs.RunKeeps | src/vm/cpu/virtual_cpu_core.cpp:44-105 | they hold after every sequence of steps |
| Runs.LoadsQueueInOrder | src/vm/os/virtual_os.cpp:36-42 | n loads leave all n processes Ready and queued in loading order |
| Runs.EveryProcessOwned | src/vm/os/preemptive_scheduler.cpp:15-44 | in every reachable state a process is Ready, queued exactly once and held by nobody; or Running, not queued and held by exactly one core; or Halted and not queued |
| Runs.HaltedForever | src/vm/cpu/virtual_cpu_core.cpp:66-91 | a Halted process stays Halted |
| Runs.FifoLaw | src/vm/os/preemptive_scheduler.cpp:65-89 | queue plus returned processes equals acquired processes plus the remaining queue, over any sequence of steps: first in, first out, with nothing lost or invented |
| Runs.BoundedWaiting | src/vm/os/preemptive_scheduler.cpp:24-31 | the process at queue position k < n is the k-th one acquired from now, by whichever core, and until then moves up one place per acquisition |
| Waiting.StarvationBound | src/vm/cpu/virtual_cpu_core.cpp:44-105 | while the process at queue position k has not been acquired, all cores together execute at most k + cores full time slices, yields, ends and crashes included |
| Runs.QuantumBound | src/vm/cpu/virtual_cpu_core.cpp:128-140 | between two instructions of a hold, executed instructions plus the slice left are the quantum; a hold never exceeds it |
| Runs.ReleasedOnExpiry | src/vm/cpu/virtual_cpu_core.cpp:100-103 | a process that does not yield is put back exactly when it has executed quantum instructions |
| Runs.StepCount | src/vm/cpu/virtual_cpu_core.cpp:44-105 | no step creates or loses a process or revives a Halted one |
| OwnershipSteps.PickIsHead | src/vm/os/preemptive_scheduler.cpp:65-89 | whenever a process is queued, the pick is the head of the queue: no id is skipped and the round-robin scan finds nothing |
| Scheduling.ScanLaw | src/vm/os/preemptive_scheduler.cpp:78-88 | the round-robin scan finds nothing, and changes nothing, if and only if no process is Ready; otherwise the first Ready one counting on cyclically from the index, which becomes Running with a full slice, and the index is behind it |
| Scheduling.PickLaw | src/vm/os/preemptive_scheduler.cpp:65-76 | the queue is taken off up to and including its first Ready process, which becomes Running with a full slice, and nothing else changes |
| Scheduling.PickScans | src/vm/os/preemptive_scheduler.cpp:65-89 | without a Ready process in the queue, it is emptied and the table scanned |
| Scheduling.AddReadySound | src/vm/os/preemptive_scheduler.cpp:33-44 | notifyProcessReady keeps the queue as a prefix and adds only Ready processes, once each |
| Scheduling.AddReadyComplete | src/vm/os/preemptive_scheduler.cpp:33-44 | and leaves no Ready process out of the queue |
| Scheduling.AddReadyInOrder | src/vm/os/preemptive_scheduler.cpp:33-44 | the added ones stand in table order |
| Scheduling.NotifyWhenAllQueued | src/vm/os/preemptive_scheduler.cpp:33-44 | when every Ready process is queued it changes nothing |
| Progress.SleepersMeanNoWork | src/vm/os/preemptive_scheduler.cpp:24-44 | in every reachable state a core asleep and un-notified means that no process is Ready or queued: no wake-up is lost |
| Progress.NoLostShutdown | src/vm/os/virtual_os.cpp:68-81 | in every reachable state in which all processes are Halted and no core owes its callback, run() is not asleep un-notified, under every interleaving of the callbacks |
| Progress.NeverStuck | src/vm/os/preemptive_scheduler.cpp:24-44 | every state that satisfies the invariants and is before shutdown has a step other than a spurious wake-up |
| Progress.NoDeadlock | src/vm/os/preemptive_scheduler.cpp:24-44 | so every reachable state before shutdown, with at least one core, can go on |
| Progress.NotifyWithMutexFree | src/vm/os/preemptive_scheduler.cpp:60-63 | stop() wakes every sleeper and no core is about to sleep if and only if no core is between its test and its sleep when stop() notifies |
| Progress.SettledKept | src/vm/os/virtual_os.cpp:83-96 | a shutdown that has so settled stays settled |
| Progress.SettledProgress | src/vm/os/virtual_os.cpp:83-96 | and can go on until join() returns |
| Shutdown.SettledGoing | src/vm/os/virtual_os.cpp:83-96 | a settled shutdown is going: some core has yet to notify - it holds a process, or is past its stop-flag test on its way to onCoreIdle - or nobody is left to wake |
| Shutdown.GoingKept | src/vm/os/virtual_os.cpp:83-96 | every step, spurious or not, keeps a going shutdown going |
| Shutdown.GoingSteps | src/vm/os/virtual_os.cpp:83-96 | and one is possible until run() returns |
| Shutdown.HangExactly | src/vm/os/preemptive_scheduler.cpp:60-63 | from stop()'s notification to its join(), a run without spurious wake-ups to a join() that waits for ever exists if and only if no core holds a process, none is past its stop-flag test on its way to onCoreIdle, and some core holds the scheduler mutex on its way to sleep or, after the notification, sleeps un-notified; spurious wake-ups add no case |
| Shutdown.HangAhead | src/vm/os/preemptive_scheduler.cpp:60-63 | while the flag is still set such a run exists if and only if some core is awake |
| Shutdown.JoinDecides | src/vm/os/virtual_os.cpp:83-96 | when run() reaches join() the race is decided: without spurious wake-ups every run from there that cannot be extended has returned if the shutdown was going, and hangs if it was not |
| Shutdown.JoinBounded | src/vm/os/virtual_os.cpp:83-96 | no run from join() on takes more than four steps a core and one more, spurious wake-ups aside |
| SourceSemantics.MeaningExactly | src/vm/types.cpp:7-31 | the word generated for an instruction does in every state what the source says if and only if its operands survive the 12-bit field and r15 is not pushed or a right-hand operand (other than `or r15, r15` and nop) |
| SourceSemantics.FaithfulMeaning | src/vm/assembler/parser.cpp:167-346 | the faithful direction, one state at a time |
| SourceSemantics.UnfaithfulMeaning | src/vm/isa/instruction_helpers.cpp:7-12 | every other instruction is misread in some state |
| Simulation.Simulates | src/vm/assembler/parser.cpp:167-367 | for every n, n instructions of the loaded process correspond to n steps of the source program: same registers, flags, pc, stack, data and output, as long as the source stays inside its own code |
| Simulation.OutcomesAgree | src/vm/assembler/parser.cpp:167-367 | and every instruction ends as the source's step does |
| Simulation.PlainFaithful | src/vm/types.cpp:7-31 | fewer than 2048 instructions, at most 2048 data bytes, 12-bit numbers and no r15 on the right make a program faithful |
| Printing.AssembledExactly | src/vm/assembler/parser.cpp:10-140 | a source text is assembled if and only if it spells, character for character and with whatever layout, a list of statements that is well-formed, and then it is assembled as those statements: the input language said without lexer and parser |
| Printing.SourceExactly | src/vm/assembler/parser.cpp:70-140 | the assembler reads given statements from exactly the texts that spell them |
| Printing.TextExactly | src/vm/assembler/lexer.cpp:9-104 | the lexer reads a whole text as given tokens if and only if the text is their spellings with gaps of spaces, tabs and carriage returns, comments only before a line end, and a gap wherever a letter, digit or underscore would carry a token on; every other text holds a character it refuses |
| Grammar.ProgramExactly | src/vm/assembler/parser.cpp:70-140 | the parser reads given statements from exactly the token lists that are those statements' tokens, with any number of line ends around each |
| Grammar.StatementExactly | src/vm/assembler/parser.cpp:79-138 | one statement of a section, by its tokens: section heads, declarations, labels, instructions |
| Grammar.InstructionExactly | src/vm/assembler/parser.cpp:167-346 | one instruction, by its tokens: it is read from the first n tokens if and only if they spell it |
| Grammar.MnemonicExactly | src/vm/isa/opcode_table.cpp:7-25 | each of the 27 names of the opcode table stands for the opcode of its number, and no other name stands for any |
| Grammar.NumeralSplit | src/vm/assembler/parser.cpp:376-382 | a numeral is positional, to base ten |
| Grammar.NumeralDigit | src/vm/assembler/parser.cpp:376-382 | its digits have their values |
| Grammar.NumberRead | src/vm/assembler/parser.cpp:376-382 | a number token, with or without a minus, needs a digit and a value of 64 bits, of which the low 16 are kept as a signed number |
| SourceLanguage.TextToWords | src/vm/assembler/parser.cpp:10-27 | a text that spells well-formed statements is assembled to one word for each instruction, in its place, and that word is the one of the table of forms |
| SourceLanguage.EmittedWord | src/vm/assembler/parser.cpp:167-367 | the word of every form of instruction in plain numbers: opcode, three registers, and number, label or offset modulo 4096 |
| SourceLanguage.CallAssembles | src/vm/assembler/parser.cpp:405-422 | a call is assembled if and only if it names print, scan, exit, yield or load and its argument is a number or a known symbol |
| SourceLanguage.CallWord | src/vm/assembler/parser.cpp:364-367 | its word has opcode 22 and the service's number, 0 to 4 in print, scan, exit, yield and load, as its second register |
| SourceLanguage.CallServes | src/vm/os/syscall_handler.cpp:12-52 | what the call means: exit ends as Halt and yield as Yield, each with only pc moved, scan and load leave the model, print prints the data word at the address or throws |
| SourceLanguage.CallWordServes | src/vm/cpu/virtual_cpu_core.cpp:119-134 | what its word does: the same, with the address that its low twelve bits give as an unsigned 16-bit number |
| SourceLanguage.SourceMeans | src/vm/assembler/parser.cpp:167-346 | the source meaning that the loaded words simulate, in numbers and for every instruction, faithful or not: results, flags, pc, stack, data, output and outcome, over sixteen like registers and full numbers and addresses |
| SourceLanguage.DeclaredSize | src/vm/assembler/parser.cpp:424-436 | BYTE, DBYTE, WORD and QWORD move every later offset by 1, 2, 4 and 8, other statements by nothing |
| SourceLanguage.DeclaredBytes | src/vm/assembler/parser.cpp:36-65 | byte i of a declaration in the assembled data is floor(v / 256^i) modulo 256, and the data has no other bytes |
| Assembly.AssembleExactly | src/vm/assembler/parser.cpp:10-140 | the assembler accepts a program if and only if bracketed symbols are declared before use, labels are defined, services exist and only mov takes a symbol in brackets; the code is one word per instruction at the instruction's address, the data the image of the symbols |
| Assembly.PassesAgree | src/vm/assembler/parser.cpp:10-36 | both passes end with the same labels, and the first one's codeAddress is the number of words emitted, modulo 2^32 |
| Assembly.FirstPass | src/vm/assembler/parser.cpp:29-32 | the first pass succeeds exactly when each bracketed symbol is known at its use, and then knows all labels, symbols, addresses and offsets |
| Assembly.SecondPass | src/vm/assembler/parser.cpp:34-68 | the second pass visits the same statements at the same addresses and emits each instruction's word there |
| Assembly.LabelResolution | src/vm/assembler/parser.cpp:384-390 | a label reference is resolved to the address of the nearest preceding definition, else of the last one, and to none only if there is none |
| Assembly.UniqueResolution | src/vm/assembler/parser.cpp:384-390 | with unique labels, to the one definition, before or after the reference |
| Assembly.SymbolResolution | src/vm/assembler/parser.cpp:392-398 | a symbol is resolved to the offset of its first declaration |
| Assembly.SameOffset | src/vm/assembler/parser.cpp:392-398 | which is the same in both passes |
| Assembly.OffsetsGrow | src/vm/assembler/parser.cpp:116-120 | symbol ranges do not overlap and follow one another |
| Assembly.DataImage | src/vm/assembler/parser.cpp:34-65 | each symbol's range of the image holds exactly its bytes, and the ranges fill the image |
| Assembly.SymbolValue | src/vm/assembler/parser.cpp:37-65 | a symbol's bytes are its value modulo 2^(8 size), low byte first |
| Assembly.WordSymbol | src/vm/assembler/parser.cpp:48-55 | a WORD symbol read as a data word of the image is its value |
| EndToEnd.SymbolHeld | src/vm/memory/process_memory.cpp:46-49 | in every memory that holds the program, a data read at the symbol's offset gives its value |
| EndToEnd.SymbolLoaded | src/vm/os/program_loader.cpp:7-23 | so it does right after the program is loaded |
| Parsing.Parser.Parse | src/vm/assembler/parser.cpp:10-27 | the two-pass recursive-descent parser returns exactly the program of the two-pass specification, and fails exactly when it does, whenever the declared data, if the first pass accepts it, stays below 4 GiB |
| Assembly.ShortDataFits | src/vm/assembler/parser.cpp:116-120 | which it does for every source shorter than 512 MiB |
| Parsing.Parser.ParseProgram | src/vm/assembler/parser.cpp:70-140 | the statement loop, which rewinds the lexer, visits the statements of the grammar in one pass and ends on every source |
| Parsing.Parser.ParseStatement | src/vm/assembler/parser.cpp:79-138 | one round: the statement of the grammar, its pass's effect, and the section it leaves |
| Parsing.Parser.ParseCode | src/vm/assembler/parser.cpp:125-135 | label or rewound instruction |
| Parsing.Parser.ParseInstruction | src/vm/assembler/parser.cpp:167-346 | one instruction is accepted exactly when it is in the grammar and resolvable; its word is appended and codeAddress moves on |
| Parsing.Parser.ParseOperands | src/vm/assembler/parser.cpp:244-342 | the forms of the opcode table |
| Parsing.Parser.ResolveDataSymbol | src/vm/assembler/parser.cpp:392-398 | the search loop finds the first symbol of the name |
| Parsing.Parser.SecondPass | src/vm/assembler/parser.cpp:34-68 | image first, then code |
| Parsing.WriteImage | src/vm/assembler/parser.cpp:36-65 | the image written in place, symbol by symbol, is the concatenation of the symbols' bytes |
| Syntax.GrammarProper | src/vm/assembler/parser.cpp:244-345 | the grammar yields only opcodes that fit their form; nop takes two operands |
| Printing.AssemblesAsWritten | src/vm/assembler/parser.cpp:70-140 | every listing of statements, with any blanks, comments and line ends or none before, between and after them, is assembled as those statements |
| Printing.ListingReadBack | src/vm/assembler/parser.cpp:70-140 | parsing the tokens of any list of statements gives the statements back |
| Printing.TextReadBack | src/vm/assembler/lexer.cpp:68-104 | lexing any spaced spelling of tokens, from any position, gives the tokens back |
| Printing.EveryProgramHasText | src/vm/assembler/parser.cpp:10-27 | every list of statements with proper names has such a text |
| Lexing.Lexer.Next | src/vm/assembler/lexer.cpp:106-114 | next returns the first token of the fixed token sequence and drops it, cached or not |
| Lexing.Lexer.Peek | src/vm/assembler/lexer.cpp:116-128 | peek returns it and drops nothing |
| Lexing.Lexer.Restore | src/vm/assembler/lexer.cpp:140-143 | restore continues with the tokens from the mark; the line is right if and only if no newline was read since |
| Lexing.Lexer.ReadToken | src/vm/assembler/lexer.cpp:68-104 | one fresh token, with its line, or the exception for an unexpected character |
| Lexing.LexKeepsLine | src/vm/assembler/lexer.cpp:9-24 | only a newline token moves the line, so the rewind of a statement keeps it right |
| Factorial.Calls | examples/subroutine.asm:11-24 | by induction over the return addresses on the stack: a call with m in r0 and room for its frames returns to the address on the stack, with m! modulo 2^32 in r0 and the rest of the stack and the data as they were |
| Factorial.Prints | examples/subroutine.asm:3-10 | for every 12-bit constant up to 512 the program prints n! modulo 2^32, stores it, and halts with the stack as at the start |
| Factorial.TooDeep | examples/subroutine.asm:14-18 | for 512 < n < 2048 it overflows the stack and prints nothing |
| Factorial.Overflows | examples/subroutine.asm:14-18 | a call without room for its frames ends in Error |
| Encoding.DecodeEncode | src/vm/types.cpp:7-31 | decoding an encoded word gives the opcode, each register modulo 16 and the sign-extended low 12 bits of the immediate |
| Encoding.EncodeDecode | src/vm/types.cpp:7-31 | re-encoding the decoded fields of any 32-bit word gives the word back |
| Encoding.EncodeBitwise | src/vm/types.cpp:7-16 | the weighted sum of the fields is what the shifts, masks and ors compute |
| Encoding.DecodeOpcodeBitwise | src/vm/types.cpp:21 | the opcode field as shift and mask |
| Encoding.DecodeRegisterBitwise | src/vm/types.cpp:22-24 | the register fields as shift and mask |
| Encoding.DecodeImmediateBitwise | src/vm/types.cpp:25-29 | the immediate as mask and sign extension |
| Encoding.ImmediateFaithful | src/vm/types.cpp:25-29 | an immediate comes back unchanged if and only if it is in [-2048, 2047] |
| Encoding.AddressFaithful | src/vm/assembler/parser.cpp:360-362 | an address comes back unchanged if and only if it is below 2048 (or one of the 2048 highest words) |
| InstructionSet.Computation | src/vm/isa/handlers/arithmetic_handlers.cpp:34-108 | for all registers, immediates and flags, mov, add, sub, mul, div, mod, inc, dec, and, or, xor, not, cmp and nop do in plain numbers what the instruction set promises: the sum, difference, product, quotient, remainder, successor or predecessor modulo 2^32, or the 32 conjunctions, disjunctions, inequalities or negations of bits, in rd; every other register kept; pc one further modulo 2^32; zero and sign those of the result; carry and overflow kept or those of the difference; a zero divisor is an Error that changes nothing |
| InstructionSet.LogicBits | src/vm/isa/handlers/logic_handlers.cpp:34-70 | each of the 32 bits of the and, or, xor and complement of two words is the conjunction, disjunction, inequality or negation of their bits |
| InstructionSet.CompareAndJump | src/vm/isa/instruction_helpers.cpp:14-31 | after cmp or sub, the conditions of je and jne decide equality, and those of jl, jge, jg and jle the signed order if and only if the signed difference fits 32 bits |
| InstructionSet.Jumps | src/vm/isa/handlers/jump_handlers.cpp:13-57 | each jump's condition on the flags, jmp always; taken, pc is the immediate modulo 2^32, otherwise one further, and nothing else changes |
| InstructionSet.Halts | src/vm/isa/handlers/control_handlers.cpp:37-40 | halt ends the process where it stands |
| InstructionSet.Loads | src/vm/isa/handlers/memory_handlers.cpp:41-47 | load puts the number that four bytes of the data segment spell into rd, or throws exactly when they are not all inside it |
| InstructionSet.StoresWord | src/vm/isa/handlers/memory_handlers.cpp:49-55 | store makes exactly those four bytes spell the register, or throws and changes nothing |
| InstructionSet.Pushes | src/vm/isa/handlers/stack_handlers.cpp:34-45 | push moves sp down by four and makes exactly the four bytes there spell its operand; on a full stack it is an Error that changes nothing |
| InstructionSet.Pops | src/vm/isa/handlers/stack_handlers.cpp:47-70 | pop and ret move sp up by four and put the number below into rd or pc; on an empty stack they are an Error that changes nothing |
| InstructionSet.Services | src/vm/cpu/virtual_cpu_core.cpp:119-134 | system calls by number: 0 prints the data word or throws, 2 halts, 3 yields, 1 and 4 leave the model, others only move pc |
| InstructionSet.SliceCost | src/vm/cpu/virtual_cpu_core.cpp:119-140 | every instruction takes one from the time slice, except that exit, yield and exceptions leave it |
| InstructionSet.InstructionWord | include/vm/types.hpp:21-50 | the fields of every 32-bit word, the opcode by its number, bytes from 28 on being none |
| Machine.CompareFlags | src/vm/cpu/register_file.cpp:26-33 | after a subtraction or comparison carry is unsigned less-than, overflow is a signed difference outside int32, and sign differs from overflow exactly on signed less-than |
| Machine.OrderedJumps | src/vm/isa/instruction_helpers.cpp:14-31 | each of jl, jge, jg and jle decides the signed order if and only if there was no overflow; je and jne decide equality |
| Machine.OverflowMisleadsJump | src/vm/isa/instruction_helpers.cpp:24-25 | comparing the least int32 with 1 misleads jl |
| Machine.AddThenSub | src/vm/isa/handlers/arithmetic_handlers.cpp:34-53 | subtracting what was added restores the registers, for all words |
| Machine.SubThenAdd | src/vm/isa/handlers/arithmetic_handlers.cpp:34-53 | adding what was subtracted restores them |
| Machine.UnaryInverse | src/vm/isa/handlers/arithmetic_handlers.cpp:92-109 | inc and dec undo each other, and not undoes itself |
| Machine.DivModLaw | src/vm/isa/handlers/arithmetic_handlers.cpp:64-91 | div and mod are quotient and remainder, and fail together, changing nothing, exactly on a zero divisor |
| Machine.LogicLaw | src/vm/isa/handlers/logic_handlers.cpp:34-63 | and, or and xor of two words are tied to their sum |
| Machine.ExecuteFrame | src/vm/memory/process_memory.cpp:23-63 | any instruction, however it ends, changes nothing outside its process's data and stack segments |
| Machine.ExecuteLocal | src/vm/memory/process_memory.cpp:23-104 | what it does depends on the registers and the process's own region only |
| Machine.CodeImmutable | src/vm/memory/process_memory.cpp:38-44 | over any run every code word stays as loaded |
| Machine.SoloFrame | src/vm/memory/process_memory.cpp:51-104 | over any run only data and stack segments change |
| StackMachine.ExecuteRefines | src/vm/memory/process_memory.cpp:77-104 | every instruction of the byte machine is the instruction of an abstract process whose stack is a sequence of words: same outcome, same output, sp inside the segment and word-aligned |
| StackMachine.StackPointerInvariant | src/vm/memory/process_memory.cpp:87-104 | over any run sp stays in [stack base, stack end] and word-aligned |
| StackMachine.PushesFit | src/vm/memory/process_memory.cpp:77-94 | a sequence of pushes succeeds if and only if it fits, and then the stack holds it in reverse order on top |
| Segments.PushIsCons | src/vm/memory/process_memory.cpp:87-94 | push succeeds exactly with room left and then puts its word on top |
| Segments.PopIsTail | src/vm/memory/process_memory.cpp:96-104 | pop succeeds exactly on a non-empty stack, returns the top and leaves the rest |
| Segments.PushPop | src/vm/memory/process_memory.cpp:87-104 | pop after push returns the word and restores sp |
| Segments.ValidationNeverFires | src/vm/memory/process_memory.cpp:30-36 | validateStackAccess never fires after canPush or canPop |
| Segments.FailureMeansFullOrEmpty | src/vm/memory/process_memory.cpp:77-104 | a push or pop fails only on a full or empty stack, and then changes neither memory nor sp |
| Segments.ProcessMemory.PushWord | src/vm/memory/process_memory.cpp:87-94 | the method does what Push says |
| Segments.ProcessMemory.PopWord | src/vm/memory/process_memory.cpp:96-104 | the method does what Pop says |
| Segments.ProcessMemory.ReadDataWord | src/vm/memory/process_memory.cpp:46-49 | checked read of the data segment |
| Segments.ProcessMemory.WriteDataWord | src/vm/memory/process_memory.cpp:51-54 | checked write of the data segment; a failed one changes nothing |
| Segments.ProcessMemory.ReadCodeWord | src/vm/memory/process_memory.cpp:38-40 | fetch, unchecked against the code segment |
| Segments.ProcessMemory.LoadCode | src/vm/memory/process_memory.cpp:66-70 | the loop stores the words one after the other, up to the first that does not fit in memory |
| Memory.PhysicalMemory.ReadWord | src/vm/memory/physical_memory.cpp:27-35 | the shift-and-or loop reads the little-endian word, or fails exactly out of bounds |
| Memory.PhysicalMemory.WriteWord | src/vm/memory/physical_memory.cpp:37-43 | the mask-and-shift loop writes it, changing four bytes or nothing |
| Memory.PhysicalMemory.WriteBytes | src/vm/memory/physical_memory.cpp:53-59 | the copy loop replaces exactly the addressed bytes, or nothing |
| Memory.PhysicalMemory.AllocateRegion | src/vm/memory/physical_memory.cpp:61-69 | the bump allocator hands out the next region or changes nothing |
| Memory.WrittenWord | src/vm/memory/physical_memory.cpp:27-43 | a written word is read back |
| Words.BytesRoundTrip | src/vm/memory/physical_memory.cpp:27-43 | n little-endian bytes of a value read back as the value modulo 2^(8n) |
| Words.ByteAt | src/vm/memory/physical_memory.cpp:40-42 | byte i of a value as the loops shift and mask it |
| Loader.LoadHolds | src/vm/os/program_loader.cpp:7-23 | a program that fits is loaded whenever a region is left, reads back exactly, and nothing outside its code and data segments changes |
| Loader.LoadAllHolds | src/vm/os/program_loader.cpp:7-23 | any sequence of such loads succeeds: region i is the i-th 64 KiB block and still holds program i, and all stacks are zero |
| Loader.RegionsDisjoint | src/vm/memory/physical_memory.cpp:61-69 | whatever programs are loaded, oversized ones included, region i is the i-th 64 KiB block, ends before every later region begins, and all regions end inside memory |
| Loader.FailedAllocation | src/vm/memory/physical_memory.cpp:61-69 | with no region left, the load of any program fails and changes nothing; the load of a program that fits fails only then |
| Loader.FitsRegionExactly | src/vm/os/program_loader.cpp:9-13 | code, data and stack stay inside the region if and only if their sizes add up to at most 64 KiB, which the loader does not check |
| Loader.InitialProcess | src/vm/os/virtual_os.cpp:50-51 | a new process starts with zero registers, one zero word on its stack and the program's data |
| Loader.InitialPushes | src/vm/os/virtual_os.cpp:50-51 | exactly 1023 words can then be pushed |
| Loader.ProgramLoader.Load | src/vm/os/program_loader.cpp:7-23 | the method has the specified effect on memory and allocator, exceptions included |
| Cpu.ExecuteInstruction | src/vm/cpu/virtual_cpu_core.cpp:107-141 | the method takes the step of the specification: state, outcome, output, halted and yield flags and time slice |
| Cpu.ExecuteRegistered | src/vm/cpu/virtual_cpu_core.cpp:136-140 | the handler of every opcode has the specified effect; other opcodes throw |
| Cpu.ExecuteArithmetic | src/vm/isa/handlers/arithmetic_handlers.cpp:34-108 | the handlers of add, sub, mul, div, mod, inc and dec have the effect that InstructionSet.Computation spells out |
| Cpu.ExecuteLogic | src/vm/isa/handlers/logic_handlers.cpp:34-80 | the handlers of and, or, xor, not and cmp have the effect that InstructionSet.Computation spells out |
| Cpu.ExecuteJump | src/vm/isa/handlers/jump_handlers.cpp:47-57 | the handlers of jmp and the conditional jumps have the effect that InstructionSet.Jumps spells out |
| Cpu.ExecuteMemory | src/vm/isa/handlers/memory_handlers.cpp:34-57 | the handlers of mov, load and store have the effect that InstructionSet.Computation, Loads and StoresWord spell out |
| Cpu.ExecuteStack | src/vm/isa/handlers/stack_handlers.cpp:34-71 | the handlers of push, pop and ret, whose stack exceptions become Error, have the effect that InstructionSet.Pushes and Pops spell out |
| Cpu.HandleSyscall | src/vm/os/syscall_handler.cpp:12-35 | print, exit and yield as specified; scan and load end as External before any effect |
| Cpu.RegisterFile.UpdateFlagsSub | src/vm/cpu/register_file.cpp:26-33 | the flags of a subtraction |
| Cpu.RegisterFile.UpdateFlags | src/vm/cpu/register_file.cpp:21-24 | zero and sign; carry and overflow stay |
| CoreLoop.VirtualCpuCore.Hold | src/vm/cpu/virtual_cpu_core.cpp:44-105 | from acquiring a process to letting it go the loop executes exactly the next n instructions of its solo run, n at most the time slice and equal to it when nothing else ends the hold, and leaves scheduler and process as the outcome demands |
| CoreLoop.VirtualCpuCore.ReleaseProcess | src/vm/cpu/virtual_cpu_core.cpp:143-152 | preempted, re-announced or only announced, by the process's state |
| CoreLoop.ReleaseAgrees | src/vm/cpu/virtual_cpu_core.cpp:143-152 | this is the scheduler's part of the protocol's release step |
| HoldRun.HoldIsRun | src/vm/cpu/virtual_cpu_core.cpp:44-105 | every hold that Hold's contract allows is a run of the machine by that core's actions alone, with the same registers, memory, output, instruction count and scheduler, and no other process touched |
| Scheduling.PreemptiveScheduler.OnPreempt | src/vm/os/preemptive_scheduler.cpp:15-22 | a Running process becomes Ready at the back of the queue; any other is left alone |
| Scheduling.PreemptiveScheduler.NotifyProcessReady | src/vm/os/preemptive_scheduler.cpp:33-44 | the double loop appends exactly the Ready processes not yet queued, in table order |
| Scheduling.PreemptiveScheduler.PickNextProcess | src/vm/os/preemptive_scheduler.cpp:65-89 | the two search loops choose what the specification chooses, set it Running and give it the quantum |
| Scheduling.PreemptiveScheduler.AcquireProcess | src/vm/os/preemptive_scheduler.cpp:24-31 | no process once stopped, otherwise the pick |
| Scheduling.PreemptiveScheduler.HasRunnableWork | src/vm/os/preemptive_scheduler.cpp:46-58 | true exactly if some process is not Halted |
| Scheduling.ProcessTable.Find | src/vm/process/process_table.cpp:12-19 | the process with the id, or null |
| Scheduling.ProcessTable.AllHalted | src/vm/process/process_table.cpp:30-40 | true exactly if every process is Halted |
| VirtualOs.VirtualOS.CreateProcess | src/vm/os/virtual_os.cpp:44-55 | a new process in the next region, in its initial state, with a full slice, appended to the table and to what the scheduler sees; or nothing |
| VirtualOs.VirtualOS.NewProcess | src/vm/os/virtual_os.cpp:48-53 | the control block: zero registers, the stack pointer one word below the stack's end, a full slice, no flag set |
| VirtualOs.VirtualOS.LoadProgramFromSource | src/vm/os/virtual_os.cpp:36-42 | assembled, loaded, Ready and queued behind the others, which are unchanged; or nothing |
| VirtualOs.VirtualOS.StepProcess | src/vm/os/virtual_os.cpp:106-115 | one step of the solo run of the process with the id - state, outcome, output, flags and slice - with the state, context and registers of every other process unchanged; or the exception for an unknown id, with nothing changed |
| Startup.LoadSources | main.cpp:70-72 | the loading loop succeeds exactly when every source assembles and every load succeeds; scheduler, memory and processes are then those of as many loads in that order |
| Startup.Prepare | main.cpp:66-72 | a new VirtualOS that has loaded the texts of sound programs holds exactly the scheduler, memory, layouts and registers that the machine of the theorems above starts from |

## Left out

- `scan` and `load` as system calls: outside input and loading during run() end a run with the outcome External, which the machine theorems exclude.
- Premises of the machine theorems: code, data and 4 KiB of stack fit a 64 KiB region, and a process fetches inside its own region while it goes on; the code checks neither, and the second follows for sound source programs.
- Memory of 4 GiB or more: addresses of a physical memory below 2^32 bytes do not wrap.
- Parsing.Parser.Parse: sources whose declared data is 4 GiB or more, whose 32-bit offsets wrap and make the code write past the end of the image.
- Messages and line numbers of exceptions, and which of several errors of a source is reported: failure is one value. The lexer's lines are modelled.
- `std::isalpha` in other locales than "C", and characters as anything but code units.
- Fetching and executing one instruction: two steps of the protocol; each critical section and each field access is atomic, and the C++ memory model's data races are not represented.
- Fairness: between stop()'s notification and the last stop flag a core can spin through acquireProcess any number of times, so the steps of stop() itself have no bound; from join() on they have.
- Stepping a process while run() is active, loads during run(), and restarting run().
- CoreLoop.VirtualCpuCore.Hold: does not model a stop request or another core in the middle of a hold; Protocol does, and HoldRun.HoldIsRun places the hold in it.
- Cpu.HandleSyscall: does not model what scan and load do, because their effects come from outside; both end as External.
- Input and output streams, command line, tracing, the text form of printed numbers, process names and error logs.
- Register-index and file errors that no caller can cause: a register number always comes from a four-bit field or from a checked token.
- `readByte`, `writeByte`, `readBytes`, `readDataByte`, `writeDataByte`, `loadData` and the save and restore of contexts, which no modelled path uses and which would add only easy members.
