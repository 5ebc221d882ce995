# 5x5x5 LED cube snake, modelled in Dafny

This project models the logic of the ATmega16 firmware `snake.c` that runs a
"snake" animation on a 5x5x5 LED cube:

- **the simulation step** — the body of the firmware's endless loop up to
  rendering. Each step:
  1. ages every voxel of the `field[5][5][5]` age buffer;
  2. stamps the head `cur` with the trail length `len`;
  3. on reaching the target `tgt`, grows `len` and picks a new target by
     rejection sampling;
  4. otherwise steps the head greedily toward the target (order +x, -x, +y,
     -y, +z, -z), then onto any free neighbour in the same order;
  5. when boxed in, restarts from a dark cube with a random head;
  6. finally lights the target at age 1.
- **the display** — `bitfield`, which packs eight values into a port byte,
  and `zrow`, which computes the four port words (PORTA..PORTD) showing one
  z-layer: 25 column lines, 5 layer strobes and 2 spare bits. It also covers
  the interlaced scan order 0, 2, 4, 1, 3, repeated ten times per step.

Layout:

| file | module | contents |
|---|---|---|
| `options.dfy` | `Options` | `Option` |
| `bits.dfy` | `Bits` | `uint8_t` values, bit tests, `Bitfield` |
| `voxels.dfy` | `Voxels` | positions, the age buffer, ageing and clearing (pure and as the firmware's nested loops) |
| `display.dfy` | `Display` | `Zrow`, the wiring table, the scan order, frames and bursts |
| `snake.dfy` | `Snake` | the state, random tries, the movement chain, `Tick`, `Run`, and lemmas per branch |

Modelling choices:

- The state is an immutable `State(field, cur, tgt, len)`.
- The buffer is a flat `seq` of 125 ages. Its order is x outermost, z
  innermost: the order of the firmware's loops. The offset `25x + 5y + z`
  is written as sums (`Voxels.Offset`) so that it stays linear.
- Ages and `len` are `uint8_t` in the source. Here they are integers in
  0..255, and `len++` is `Snake.Inc`, which wraps 255 to 0.
- `rand()` is replaced by a sequence `draws` of `Roll`s. A `Roll` holds the
  non-negative values of the three calls that make one random position
  (x, then y, then z). Each value is reduced `% 5`.
- The greedy moves (snake.c:121-132) test only the target and the
  neighbour's age, not the cube's bounds. The model's `Open` also checks
  the bounds. This changes nothing: a move toward an in-cube target never
  leaves the cube (`Snake.StepsStayInGrid`).
- The target search loops until it finds an unlit voxel; nothing bounds how
  many tries it needs. So `Tick` returns `None` when `draws` runs out. No
  claim is made that the search terminates.
- `Zrow` returns the four port words instead of writing the registers.
- Each step of `Tick` follows the source's order. Where a natural reading
  differs from the code, the model follows the code. Example: after the head
  steps from (0,0,0) to (1,0,0), voxel (1,0,0) is still dark. It is first
  stamped by the next tick (snake.c:105). See `Snake.StraightRun`.
- The firmware's nested loops are split into one method per loop level
  (`DecayRow`, `DecayPlane`, `DecayLoops`, and the same for clearing).

## Model

| member | source | states |
|---|---|---|
| `Bits.Bitfield` | snake.c:19-31 | bit i of the packed byte is set exactly when the i-th argument is non-zero, `a` being bit 0 |
| `Bits.BitfieldOfBits` | snake.c:19-31 | packing the eight bits of any byte gives that byte back: the packer loses nothing |
| `Bits.BitfieldTruthOnly` | snake.c:19-31 | two packings are equal exactly when their arguments agree on being non-zero |
| `Voxels.Blank` | snake.c:37 | the initial buffer has every voxel at age 0 |
| `Voxels.Put` | snake.c:105 | a store sets the addressed voxel and leaves every other voxel unchanged |
| `Voxels.IndexInjective` | snake.c:37 | distinct voxels occupy distinct places in the buffer |
| `Voxels.FieldExt` | snake.c:37 | two buffers that agree on every voxel are equal |
| `Voxels.Decay` | snake.c:90-100 | every voxel with a positive age loses exactly 1; every unlit voxel stays unlit |
| `Voxels.DecayRow` | snake.c:95-98 | the innermost ageing loop ages exactly the next five entries of the buffer, in row-major order |
| `Voxels.DecayPlane` | snake.c:94-99 | the middle ageing loop ages exactly the next 25 entries |
| `Voxels.DecayLoops` | snake.c:93-100 | the three nested loops decrementing positive entries compute `Decay` |
| `Voxels.ClearRow` | snake.c:161-163 | the innermost reset loop zeroes the next five entries and keeps the zeroed prefix |
| `Voxels.ClearPlane` | snake.c:160-164 | the middle reset loop zeroes the next 25 entries |
| `Voxels.ClearLoops` | snake.c:159-165 | the three nested loops storing 0 leave the buffer blank whatever it held |
| `Display.Zrow` | snake.c:42-63 | the two spare PORTB bits 6 and 7 are always 0; which columns and which strobe are high is stated by `ZrowShowsLayer`, and that the words depend only on which voxels of the layer are lit by `ZrowSeesOnlyLit` |
| `Display.PortWordBit` | snake.c:45-59 | bit i of a port word is set exactly when the line wired to that bit is driven |
| `Display.ZrowFollowsWiring` | snake.c:45-59 | each of the 32 port bits written for layer z carries the line the wiring table assigns it |
| `Display.ZrowShowsLayer` | snake.c:45-59 | column (x,y) is high iff voxel (x,y,z) is lit; the strobe of layer k is high iff k = z, so exactly one strobe is set; PORTB bits 6 and 7 are 0 |
| `Display.SlotsDecode` | snake.c:45-59 | the wiring table, read at the bit assigned to a column or strobe, names that column or strobe |
| `Display.SlotsEncode` | snake.c:45-59 | every one of the 32 port bits is the bit of the column or strobe it carries, or one of the two spare PORTB bits 6 and 7 |
| `Display.SlotsDistinct` | snake.c:45-59 | the 25 columns sit on 25 distinct bits, none of them a strobe or spare bit; the 5 strobes sit on 5 distinct bits |
| `Display.ZrowReadsBack` | snake.c:45-59 | decoding the words for layer z gives exactly layer z and exactly its lit columns |
| `Display.LevelSeesOnlyLit` | snake.c:45-59 | the value handed to `bitfield` for a line is non-zero for two buffers alike when they light the same columns of the layer |
| `Display.PortWordSeesOnlyLit` | snake.c:45-59 | each port word depends on the buffer only through which voxels of the layer are lit |
| `Display.ZrowSeesOnlyLit` | snake.c:45-59 | two buffers give the same words for layer z exactly when they light the same voxels of that layer |
| `Display.Frame` | snake.c:177-181 | one pass of the scan yields five words, one per layer; their order is stated by `FrameFollowsScanOrder` |
| `Display.Burst` | snake.c:176-182 | one step's output holds ten passes of the scan, 50 words in all |
| `Display.ScanOrderIsPermutation` | snake.c:177-181 | the scan order 0, 2, 4, 1, 3 is a permutation of 0..4 and `ScanPosition` is its inverse |
| `Display.FrameFollowsScanOrder` | snake.c:177-181 | a frame has five words; the i-th strobes layer `ScanOrder[i]` alone and lights that layer's lit columns |
| `Display.FrameStrobesEachLayerOnce` | snake.c:177-181 | each layer is strobed by exactly one word of a frame, the one at its scan position |
| `Display.RepeatLayout` | snake.c:176-182 | n repetitions of a five-word frame have 5n words, the k-th being frame word k mod 5 |
| `Display.BurstLayout` | snake.c:176-182 | one step's output is 50 words, the k-th showing layer `ScanOrder[k % 5]` |
| `Snake.Start` | snake.c:68-70 | the loop starts with a dark cube, head and target both at the origin, and `len` 0 |
| `Snake.Inc` | snake.c:111 | `len++` on a `uint8_t` gives `(len + 1) mod 256` |
| `Snake.StepsStayInGrid` | snake.c:121-148 | a step toward an in-cube target passes the bounds guard, and a step passing the bounds guard stays in the cube |
| `Snake.Attempt` | snake.c:113-115 | a position made of three `rand()` values reduced modulo 5 lies in the cube |
| `Snake.PickFrom` | snake.c:112-116 | rejection sampling yields the first try that lands on an unlit voxel, every earlier try having been lit; it fails only when every try is lit |
| `Snake.Advance` | snake.c:121-148 | the direction chosen passes the bounds guard and leads onto an unlit voxel |
| `Snake.FirstAllowed` | snake.c:121-148 | the result is the first index in priority order of an allowed move, or 6 when no move is allowed |
| `Snake.AdvanceByPriority` | snake.c:121-166 | the movement chain takes the first allowed greedy move, else the first free move; it finds none exactly when every in-cube neighbour is lit |
| `Snake.OpenStep` | snake.c:121-148 | a move onto an open neighbour is one unit step along one axis and stays in the cube |
| `Snake.StepDistance` | snake.c:121-148 | a step toward the target brings the head one closer in Manhattan distance; any other step takes it one further away |
| `Snake.Placed` | snake.c:93-105 | after the ageing loops and the head store, the head holds `len` and every other voxel has aged by exactly one step |
| `Snake.Retarget` | snake.c:110-116 | the hit branch fails exactly when every try is lit; otherwise the target is the last try used, it is unlit, all earlier tries are lit, the head stays, `len` grows by 1 mod 256, and only the new target changes, to age 1 (the store of snake.c:171) |
| `Snake.Moved` | snake.c:121-148 | a move is one unit step that stays in the cube; target and `len` are kept, the target is shown at age 1 (snake.c:171), and no other voxel changes |
| `Snake.Restart` | snake.c:153-171 | the reset fails exactly when no roll is left; otherwise it uses one roll for the head, sets `len` to 1, keeps the target, and leaves the cube dark except the target at age 1 |
| `Snake.Tick` | snake.c:93-171 | a step keeps head and target inside the cube and leaves the target voxel at age 1 |
| `Snake.TickHit` | snake.c:105-116 | on a hit, `len` grows by 1 (mod 256) and the head stays; the new target is the last try consumed, the first one unlit after head placement, all earlier tries being lit; with `len` >= 1 it differs from the head; the step fails only if every try is lit |
| `Snake.TickMove` | snake.c:118-148 | if no hit and not boxed in: the head takes the priority-chosen one-voxel step onto an unlit voxel; target and `len` stay; no draws used; the old head keeps age `len` |
| `Snake.GreedyMoveApproaches` | snake.c:121-132 | a greedy move reduces the Manhattan distance to the target by exactly 1 |
| `Snake.FallbackMoveRecedes` | snake.c:137-148 | a fallback move, taken when no greedy move is open, increases the Manhattan distance to the target by exactly 1 |
| `Snake.TickStuck` | snake.c:150-171 | when every in-cube neighbour is lit, the head jumps to a random position, `len` becomes 1, and the cube is dark except the target at age 1 |
| `Snake.TickAgesTheRest` | snake.c:93-171 | no voxel other than the old head and the new target gets brighter; outside a reset each ages by exactly one step |
| `Snake.FirstTick` | snake.c:68-116 | from a dark cube with head on target and `len` 0, as at start, the first step is a hit that takes the first random try as target and sets `len` to 1 |
| `Snake.StraightRun` | snake.c:93-171 | with head (0,0,0), target (3,0,0) and (1,0,0) at most at age 1, the head steps to (1,0,0) using no draws; (0,0,0) holds `len`, (3,0,0) is at age 1 and (1,0,0) is dark |
| `Snake.Run` | snake.c:89-171 | over any number of steps, head and target stay in the cube; after at least one step the target is at age 1 |

## Left out

- JTAG disable (snake.c:71-79): a double write to `MCUCSR`, which only sets a hardware register.
- Pin-direction setup `DDRA`..`DDRD` (snake.c:84-87): only sets hardware registers.
- The 3 ms delay and the port blanking in `zrow` (snake.c:61-62): timing and physical output. `Zrow` returns the words instead.
- `rand()` itself: its values are the `draws` parameter. Seeding and distribution are not modelled.
- The endless `while (1)` (snake.c:89): modelled as one `Tick`, and `Run` for any finite number of ticks.
- Snake.Tick: returns `None` when `draws` runs out. The firmware would keep calling `rand()`, and nothing guarantees that a free voxel is ever drawn.
