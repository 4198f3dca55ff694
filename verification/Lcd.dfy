/** The asynchronous driver of the 2x16 character display: initialisation and
    flush as a state machine that submits I2C transactions one step at a time. */
module Lcd {
  import opened Words
  import opened Wrappers

  const COLS: nat := 16
  const ROWS: nat := 2

  type Octet = x: int | 0 <= x < 256

  datatype State = IDLE | RGB_INIT | LCD_INIT | LCD_READY | FLUSH_POS | FLUSH_DATA

  /** Build options: burst as configured, pause between chunks, contrast, control
      byte of commands, and whether an RGB controller is present. */
  datatype Config = Config(
    burst: int, pause: nat, contrastLow: nat, contrastHigh: nat, firstDelay: nat, cmdByte: Octet, rgb: bool)

  /** A transaction accepted by the I2C service, to the display or the RGB chip. */
  datatype Tx = Tx(toLcd: bool, bytes: seq<Octet>)

  datatype Note = READY | UPDATED

  /** `fb` is the frame, row by row. */
  datatype Dev = Dev(st: State, row: nat, col: nat, sent: nat, dirty: bool, idx: nat, fb: seq<Octet>)

  datatype Out = Out(dev: Dev, txs: seq<Tx>, posts: seq<Note>, delay: Option<nat>)

  /** The number from 1 to 64 nearest to the configured one. */
  function Burst(cfg: Config): (n: nat)
    ensures 1 <= n <= 64 && (n < cfg.burst ==> n == 64) && (n > cfg.burst ==> n == 1)
  {
    if cfg.burst < 1 then 1 else if cfg.burst > 64 then 64 else cfg.burst
  }

  // ----- transactions -----

  function Command(cfg: Config, b: Octet): Tx {
    Tx(true, [cfg.cmdByte, b])
  }

  function SetAddress(cfg: Config, addr: nat): Tx {
    Command(cfg, 0x80 + addr % 0x80)
  }

  function DataTx(d: seq<Octet>): Tx {
    Tx(true, [0x40] + d)
  }

  function RowAddress(row: nat): nat {
    if row == 0 then 0 else 0x40
  }

  // ----- initialisation -----

  function InitCommands(cfg: Config): (r: seq<Octet>)
    ensures |r| == 11
  {
    [0x38, 0x39, 0x14, 0x70 + cfg.contrastLow % 0x10, 0x5C + cfg.contrastHigh % 4, 0x6C, 0x38, 0x0C, 0x01, 0x06, 0x02]
  }

  function InitDelays(cfg: Config): (r: seq<nat>)
    ensures |r| == 11
  {
    [cfg.firstDelay % 256, 2, 2, 2, 2, 220, 2, 2, 3, 2, 2]
  }

  function RgbInit(): seq<Tx> {
    [Tx(false, [0, 0]), Tx(false, [1, 5]), Tx(false, [8, 0xAA])]
  }

  // ----- the state machine -----

  /** One call of `step`; `k` says which submissions the I2C service accepts (only
      the RGB initialisation submits more than one). */
  function Step(cfg: Config, d: Dev, k: (bool, bool, bool)): (o: Out)
    requires |d.fb| == ROWS * COLS
    ensures o.dev.fb == d.fb
  {
    match d.st
    case IDLE => Out(d, [], [], None)
    case LCD_READY => Out(d, [], [], None)
    case RGB_INIT =>
      if !cfg.rgb || (k.0 && k.1 && k.2) then
        Out(d.(st := LCD_INIT), if cfg.rgb then RgbInit() else [], [], Some(5))
      else Out(d, if !k.0 then [] else if !k.1 then RgbInit()[..1] else RgbInit()[..2], [], None)
    case LCD_INIT =>
      if d.idx < |InitCommands(cfg)| then
        if k.0 then
          var delay := InitDelays(cfg)[d.idx];
          Out(d.(idx := d.idx + 1), [Command(cfg, InitCommands(cfg)[d.idx])], [], Some(if delay == 0 then 1 else delay))
        else Out(d, [], [], None)
      else Out(d.(idx := 0, st := LCD_READY), [], [READY], None)
    case FLUSH_POS =>
      if k.0 then Out(d.(sent := 0, st := FLUSH_DATA), [SetAddress(cfg, RowAddress(d.row) + d.col)], [], None)
      else Out(d.(sent := 0), [], [], None)
    case FLUSH_DATA => DataStep(cfg, d, k.0)
  }

  function DataStep(cfg: Config, d: Dev, k: bool): Out
    requires |d.fb| == ROWS * COLS
  {
    if d.row >= ROWS then Out(d.(st := IDLE), [], [], None)
    else
      var left := if d.sent < COLS then COLS - d.sent else 0;
      var chunk := Min(left, Burst(cfg));
      if chunk > 0 && !k then Out(d, [], [], None)
      else
        var tx := if chunk == 0 then [] else [DataTx(d.fb[d.row * COLS + d.sent..d.row * COLS + d.sent + chunk])];
        ChunkSent(cfg, d, chunk, tx)
  }

  /** The next chunk of the row, or the next row, or the end of the flush. */
  function ChunkSent(cfg: Config, d: Dev, chunk: nat, tx: seq<Tx>): Out {
    var e := d.(sent := d.sent + chunk);
    if e.sent < COLS then Out(e, tx, [], if cfg.pause > 0 then Some(cfg.pause) else None)
    else if e.row + 1 >= ROWS then Out(e.(row := e.row + 1, st := IDLE, dirty := false), tx, [UPDATED], None)
    else Out(e.(row := e.row + 1, st := FLUSH_POS), tx, [], None)
  }

  /** The start event: initialisation begins at once, whatever was going on; the
      index of the next command stays where it was. */
  function OnStart(cfg: Config, d: Dev, k: (bool, bool, bool)): Out
    requires |d.fb| == ROWS * COLS
  {
    Step(cfg, d.(st := RGB_INIT), k)
  }

  /** `lcd1602rgb_request_flush` */
  function RequestFlush(cfg: Config, d: Dev, k: (bool, bool, bool)): Out
    requires |d.fb| == ROWS * COLS
  {
    if !d.dirty || (d.st != IDLE && d.st != LCD_READY) then Out(d, [], [], None)
    else Step(cfg, Flushing(d), k)
  }

  function Flushing(d: Dev): Dev {
    d.(row := 0, col := 0, sent := 0, st := FLUSH_POS)
  }

  /** How many characters of the text are drawn at this column. */
  function DrawLength(text: seq<Octet>, max: nat): (n: nat)
    ensures n <= max && n <= |text|
    ensures forall i :: 0 <= i < n ==> text[i] != 0 && text[i] != 10
    ensures n == max || n == |text| || text[n] == 0 || text[n] == 10
  {
    if max == 0 || text == [] || text[0] == 0 || text[0] == 10 then 0 else 1 + DrawLength(text[1..], max - 1)
  }

  function Printable(ch: Octet): Octet {
    if 0x20 <= ch <= 0x7E then ch else 0x3F
  }

  /** `lcd1602rgb_draw_text`; the end of the sequence is the terminating NUL. */
  function Draw(d: Dev, col: nat, row: nat, text: seq<Octet>): (r: Dev)
    requires |d.fb| == ROWS * COLS
    ensures |r.fb| == ROWS * COLS
  {
    if row >= ROWS || col >= COLS then d
    else d.(fb := Overlay(d.fb, row * COLS + col, text[..DrawLength(text, COLS - col)]), dirty := true)
  }

  function Overlay(fb: seq<Octet>, at: nat, text: seq<Octet>): (r: seq<Octet>)
    requires at + |text| <= |fb|
    ensures |r| == |fb|
    ensures forall i :: 0 <= i < |fb| ==> r[i] == if at <= i < at + |text| then Printable(text[i - at]) else fb[i]
  {
    if text == [] then fb
    else Overlay(fb, at, text[..|text| - 1])[at + |text| - 1 := Printable(text[|text| - 1])]
  }

  // ----- the display -----

  /** The display memory and its auto-incremented address. */
  datatype Ram = Ram(addr: nat, cells: seq<Octet>)

  ghost predicate RamOk(ram: Ram) {
    |ram.cells| == 0x80 && ram.addr < 0x80
  }

  function Store(ram: Ram, data: seq<Octet>): (r: Ram)
    requires RamOk(ram)
    ensures RamOk(r)
    decreases |data|
  {
    if data == [] then ram
    else Store(Ram((ram.addr + 1) % 0x80, ram.cells[ram.addr := data[0]]), data[1..])
  }

  /** The commands that matter here: set address, clear, home; others change nothing. */
  function Apply(ram: Ram, tx: Tx): (r: Ram)
    requires RamOk(ram)
    ensures RamOk(r)
  {
    if !tx.toLcd || |tx.bytes| < 2 then ram
    else if tx.bytes[0] == 0x40 then Store(ram, tx.bytes[1..])
    else if tx.bytes[1] >= 0x80 then ram.(addr := tx.bytes[1] - 0x80)
    else if tx.bytes[1] == 1 then Ram(0, seq(0x80, _ => 0x20))
    else if tx.bytes[1] == 2 || tx.bytes[1] == 3 then ram.(addr := 0)
    else ram
  }

  function ApplyAll(ram: Ram, txs: seq<Tx>): (r: Ram)
    requires RamOk(ram)
    ensures RamOk(r)
    decreases |txs|
  {
    if txs == [] then ram else ApplyAll(Apply(ram, txs[0]), txs[1..])
  }

  lemma {:induction false} StoreMeans(ram: Ram, data: seq<Octet>)
    requires RamOk(ram) && ram.addr + |data| < 0x80
    ensures var r := Store(ram, data);
      && r.addr == ram.addr + |data|
      && forall i :: 0 <= i < 0x80 ==>
           r.cells[i] == if ram.addr <= i < ram.addr + |data| then data[i - ram.addr] else ram.cells[i]
    decreases |data|
  {
    if data != [] {
      StoreMeans(Ram((ram.addr + 1) % 0x80, ram.cells[ram.addr := data[0]]), data[1..]);
    }
  }

  // ----- a flush -----

  /** The part of the frame a flush under way has sent. */
  predicate Sent(d: Dev, r: nat, c: nat) {
    r < d.row || (r == d.row && d.st == FLUSH_DATA && c < d.sent)
  }

  /** A flush is under way, or just over. */
  ghost predicate InFlush(d: Dev) {
    && |d.fb| == ROWS * COLS && d.col == 0
    && ((d.st == FLUSH_POS && d.row < ROWS)
        || (d.st == FLUSH_DATA && d.row < ROWS && d.sent < COLS)
        || Over(d))
  }

  predicate Over(d: Dev) {
    d.st == IDLE && d.row == ROWS && !d.dirty
  }

  /** While data is being sent the display's address follows. */
  ghost predicate AddressOk(d: Dev, ram: Ram) {
    RamOk(ram) && (d.st == FLUSH_DATA ==> ram.addr == RowAddress(d.row) + d.sent)
  }

  /** The display shows addresses 0x00 to 0x0F above 0x40 to 0x4F. */
  function Cell(ram: Ram, r: nat, c: nat): Octet
    requires |ram.cells| == 0x80 && r < ROWS && c < COLS
  {
    ram.cells[if r == 0 then c else 0x40 + c]
  }

  function Frame(d: Dev, r: nat, c: nat): Octet
    requires |d.fb| == ROWS * COLS && r < ROWS && c < COLS
  {
    d.fb[r * COLS + c]
  }

  /** From (d, ram) to (e, after): exactly the cells sent in between were written,
      with the characters of the frame. */
  ghost predicate Wrote(d: Dev, ram: Ram, e: Dev, after: Ram) {
    && RamOk(ram) && RamOk(after) && |d.fb| == ROWS * COLS
    && forall r: nat, c: nat :: r < ROWS && c < COLS ==>
         (Sent(d, r, c) ==> Sent(e, r, c))
         && Cell(after, r, c) == if Sent(e, r, c) && !Sent(d, r, c) then Frame(d, r, c) else Cell(ram, r, c)
  }

  lemma PosWrites(cfg: Config, d: Dev, k: (bool, bool, bool), ram: Ram)
    requires InFlush(d) && d.st == FLUSH_POS && AddressOk(d, ram) && cfg.cmdByte != 0x40
    ensures Keeps(cfg, d, k, ram)
  {
    var o := Step(cfg, d, k);
    if k.0 {
      var tx := SetAddress(cfg, RowAddress(d.row));
      assert o.txs == [tx] && o.txs[1..] == [];
      assert ApplyAll(ram, o.txs) == ram.(addr := RowAddress(d.row));
    }
  }

  /** A data step sends the next characters of the row. */
  lemma DataStores(d: Dev, ram: Ram, txs: seq<Tx>, chunk: nat)
    requires InFlush(d) && d.st == FLUSH_DATA && AddressOk(d, ram) && d.sent + chunk <= COLS && chunk > 0
    requires txs == [DataTx(d.fb[d.row * COLS + d.sent..d.row * COLS + d.sent + chunk])]
    ensures var after := ApplyAll(ram, txs);
      && after.addr == ram.addr + chunk
      && forall i :: 0 <= i < 0x80 ==>
           after.cells[i] == if ram.addr <= i < ram.addr + chunk then d.fb[d.row * COLS + d.sent + (i - ram.addr)] else ram.cells[i]
  {
    var at := d.row * COLS + d.sent;
    var data := d.fb[at..at + chunk];
    assert txs[1..] == [] && DataTx(data).bytes[1..] == data;
    StoreMeans(ram, data);
    assert ApplyAll(ram, txs) == Store(ram, data);
  }

  lemma DataCell(cfg: Config, d: Dev, ram: Ram, r: nat, c: nat)
    requires InFlush(d) && d.st == FLUSH_DATA && AddressOk(d, ram) && r < ROWS && c < COLS
    ensures var o := DataStep(cfg, d, true);
      && (Sent(d, r, c) ==> Sent(o.dev, r, c))
      && Cell(ApplyAll(ram, o.txs), r, c) == if Sent(o.dev, r, c) && !Sent(d, r, c) then Frame(d, r, c) else Cell(ram, r, c)
  {
    var o := DataStep(cfg, d, true);
    DataStores(d, ram, o.txs, Min(COLS - d.sent, Burst(cfg)));
    ChunkCells(cfg, d, ram, r, c);
    CellAt(ram, r, c);
    CellAt(ApplyAll(ram, o.txs), r, c);
  }

  lemma CellAt(ram: Ram, r: nat, c: nat)
    requires |ram.cells| == 0x80 && r < ROWS && c < COLS
    ensures RowAddress(r) + c < 0x80 && Cell(ram, r, c) == ram.cells[RowAddress(r) + c]
  {
  }

  lemma DataNext(cfg: Config, d: Dev, ram: Ram)
    requires InFlush(d) && d.st == FLUSH_DATA && AddressOk(d, ram)
    ensures var o := DataStep(cfg, d, true);
      InFlush(o.dev) && o.dev.fb == d.fb && AddressOk(o.dev, ApplyAll(ram, o.txs))
  {
    DataStores(d, ram, DataStep(cfg, d, true).txs, Min(COLS - d.sent, Burst(cfg)));
  }

  lemma DataWrites(cfg: Config, d: Dev, k: (bool, bool, bool), ram: Ram)
    requires InFlush(d) && d.st == FLUSH_DATA && AddressOk(d, ram)
    ensures Keeps(cfg, d, k, ram)
  {
    if k.0 {
      assert Step(cfg, d, k) == DataStep(cfg, d, true);
      DataNext(cfg, d, ram);
      forall r: nat, c: nat | r < ROWS && c < COLS
        ensures var o := DataStep(cfg, d, true);
          && (Sent(d, r, c) ==> Sent(o.dev, r, c))
          && Cell(ApplyAll(ram, o.txs), r, c) == if Sent(o.dev, r, c) && !Sent(d, r, c) then Frame(d, r, c) else Cell(ram, r, c)
      {
        DataCell(cfg, d, ram, r, c);
      }
    }
  }

  /** The cells that a data step sends are those at the addresses it writes. */
  lemma ChunkCells(cfg: Config, d: Dev, ram: Ram, r: nat, c: nat)
    requires InFlush(d) && d.st == FLUSH_DATA && AddressOk(d, ram) && r < ROWS && c < COLS
    ensures var e := DataStep(cfg, d, true).dev;
      && (Sent(d, r, c) ==> Sent(e, r, c))
      && (Sent(e, r, c) && !Sent(d, r, c) <==>
            ram.addr <= RowAddress(r) + c < ram.addr + Min(COLS - d.sent, Burst(cfg)))
  {
  }

  /** What one step of a flush guarantees. */
  ghost predicate Keeps(cfg: Config, d: Dev, k: (bool, bool, bool), ram: Ram)
    requires InFlush(d) && RamOk(ram)
  {
    var o := Step(cfg, d, k);
    && InFlush(o.dev) && o.dev.fb == d.fb
    && AddressOk(o.dev, ApplyAll(ram, o.txs)) && Wrote(d, ram, o.dev, ApplyAll(ram, o.txs))
  }

  lemma StepWrites(cfg: Config, d: Dev, k: (bool, bool, bool), ram: Ram)
    requires InFlush(d) && AddressOk(d, ram) && cfg.cmdByte != 0x40
    ensures Keeps(cfg, d, k, ram)
  {
    if d.st == FLUSH_POS {
      PosWrites(cfg, d, k, ram);
    } else if d.st == FLUSH_DATA {
      DataWrites(cfg, d, k, ram);
    }
  }

  // ----- the transactions of a flush -----

  /** From this row on: its address, then its characters in bursts. */
  function Rows(cfg: Config, fb: seq<Octet>, row: nat): seq<Tx>
    requires |fb| == ROWS * COLS
    decreases ROWS - row, 1, 0
  {
    if row >= ROWS then [] else [SetAddress(cfg, RowAddress(row))] + Rest(cfg, fb, row, 0)
  }

  /** The rest of this row, then the next ones. */
  function Rest(cfg: Config, fb: seq<Octet>, row: nat, sent: nat): seq<Tx>
    requires |fb| == ROWS * COLS && row < ROWS && sent <= COLS
    decreases ROWS - row, 0, COLS - sent
  {
    if sent == COLS then Rows(cfg, fb, row + 1)
    else
      var chunk := Min(COLS - sent, Burst(cfg));
      [DataTx(fb[row * COLS + sent..row * COLS + sent + chunk])] + Rest(cfg, fb, row, sent + chunk)
  }

  /** What a flush in this state still has to send. */
  ghost function Plan(cfg: Config, d: Dev): seq<Tx>
    requires InFlush(d)
  {
    if d.st == FLUSH_POS then Rows(cfg, d.fb, d.row)
    else if d.st == FLUSH_DATA then Rest(cfg, d.fb, d.row, d.sent)
    else []
  }

  lemma PlanEmpty(cfg: Config, d: Dev)
    requires InFlush(d)
    ensures Plan(cfg, d) == [] <==> Over(d)
  {
  }

  ghost predicate Planned(cfg: Config, d: Dev, o: Out, k: bool)
    requires InFlush(d)
  {
    && InFlush(o.dev) && o.dev.fb == d.fb
    && if k && !Over(d) then |o.txs| == 1 && Plan(cfg, d) == [o.txs[0]] + Plan(cfg, o.dev)
       else o.txs == [] && Plan(cfg, o.dev) == Plan(cfg, d)
  }

  lemma RowDone(cfg: Config, d: Dev, row: nat, sent: nat)
    requires |d.fb| == ROWS * COLS && row < ROWS && sent == COLS
    ensures Rest(cfg, d.fb, row, sent) == if row + 1 < ROWS then Rows(cfg, d.fb, row + 1) else []
  {
  }

  lemma RestHead(cfg: Config, fb: seq<Octet>, row: nat, sent: nat, chunk: nat)
    requires |fb| == ROWS * COLS && row < ROWS && sent < COLS && chunk == Min(COLS - sent, Burst(cfg))
    ensures Rest(cfg, fb, row, sent)
         == [DataTx(fb[row * COLS + sent..row * COLS + sent + chunk])] + Rest(cfg, fb, row, sent + chunk)
  {
  }

  /** The transaction of the next chunk characters of the row. */
  function ChunkTx(d: Dev, chunk: nat): Tx
    requires d.row * COLS + d.sent + chunk <= |d.fb|
  {
    DataTx(d.fb[d.row * COLS + d.sent..d.row * COLS + d.sent + chunk])
  }

  lemma DataPlanMore(cfg: Config, d: Dev, o: Out, chunk: nat)
    requires InFlush(d) && d.st == FLUSH_DATA && chunk == Burst(cfg) && d.sent + chunk < COLS
    requires o.dev == d.(sent := d.sent + chunk) && o.txs == [ChunkTx(d, chunk)]
    ensures Planned(cfg, d, o, true)
  {
    RestHead(cfg, d.fb, d.row, d.sent, chunk);
  }

  lemma DataPlanEnd(cfg: Config, d: Dev, o: Out, chunk: nat)
    requires InFlush(d) && d.st == FLUSH_DATA && chunk == COLS - d.sent <= Burst(cfg)
    requires o.dev == if d.row + 1 >= ROWS then d.(sent := COLS, row := d.row + 1, st := IDLE, dirty := false)
                      else d.(sent := COLS, row := d.row + 1, st := FLUSH_POS)
    requires o.txs == [ChunkTx(d, chunk)]
    ensures Planned(cfg, d, o, true)
  {
    RestHead(cfg, d.fb, d.row, d.sent, chunk);
    RowDone(cfg, d, d.row, d.sent + chunk);
  }

  lemma DataPlan(cfg: Config, d: Dev)
    requires InFlush(d) && d.st == FLUSH_DATA
    ensures Planned(cfg, d, DataStep(cfg, d, true), true)
  {
    if COLS - d.sent <= Burst(cfg) {
      DataPlanEnd(cfg, d, DataStep(cfg, d, true), COLS - d.sent);
    } else {
      DataPlanMore(cfg, d, DataStep(cfg, d, true), Burst(cfg));
    }
  }

  lemma PosPlan(cfg: Config, d: Dev, k: (bool, bool, bool))
    requires InFlush(d) && d.st == FLUSH_POS && k.0
    ensures Planned(cfg, d, Step(cfg, d, k), true)
  {
  }

  /** An accepted submit is the head of the plan; a refused one leaves the plan. */
  lemma StepPlan(cfg: Config, d: Dev, k: (bool, bool, bool))
    requires InFlush(d)
    ensures Planned(cfg, d, Step(cfg, d, k), k.0)
  {
    if d.st == FLUSH_POS && k.0 {
      PosPlan(cfg, d, k);
    } else if d.st == FLUSH_DATA && k.0 {
      DataPlan(cfg, d);
    }
  }

  /** Any number of step calls, caused by completed transfers, delays or spurious events. */
  function Run(cfg: Config, d: Dev, ks: seq<(bool, bool, bool)>): (r: (Dev, seq<Tx>))
    requires |d.fb| == ROWS * COLS
    ensures r.0.fb == d.fb
    decreases |ks|
  {
    if ks == [] then (d, [])
    else
      var o := Step(cfg, d, ks[0]);
      var (e, txs) := Run(cfg, o.dev, ks[1..]);
      (e, o.txs + txs)
  }

  function Accepted(ks: seq<(bool, bool, bool)>): nat {
    if ks == [] then 0 else (if ks[0].0 then 1 else 0) + Accepted(ks[1..])
  }

  /** What one step and then the others accepted, in a row. */
  lemma Joined(o: seq<Tx>, txs: seq<Tx>, now: seq<Tx>, next: seq<Tx>, end: seq<Tx>, a: nat, b: nat)
    requires o + next == now && txs + end == next
    requires |o| == Min(a, |now|) && |txs| == Min(b, |next|)
    ensures (o + txs) + end == now && |o + txs| == Min(a + b, |now|)
    ensures b >= |next| <==> a + b >= |now|
  {
    assert (o + txs) + end == o + (txs + end);
    assert |o + next| == |o| + |next|;
  }

  lemma StepJoins(cfg: Config, d: Dev, k: (bool, bool, bool))
    requires InFlush(d)
    ensures var o := Step(cfg, d, k);
      && InFlush(o.dev) && o.txs + Plan(cfg, o.dev) == Plan(cfg, d)
      && |o.txs| == Min(if k.0 then 1 else 0, |Plan(cfg, d)|)
  {
    PlanEmpty(cfg, d);
    StepPlan(cfg, d, k);
    var o := Step(cfg, d, k);
    assert k.0 && !Over(d) ==> o.txs == [o.txs[0]];
  }

  /** For every burst size and every pattern of refused submits and extra calls:
      what was accepted is a prefix of one fixed sequence, the n-th accepted
      submit is its n-th transaction, and the flush is over exactly when as many
      submits were accepted as the sequence is long. */
  lemma {:induction false} RunFollowsPlan(cfg: Config, d: Dev, ks: seq<(bool, bool, bool)>)
    requires InFlush(d)
    ensures var (e, txs) := Run(cfg, d, ks);
      InFlush(e) && txs + Plan(cfg, e) == Plan(cfg, d)
      && |txs| == Min(Accepted(ks), |Plan(cfg, d)|)
      && (Over(e) <==> Accepted(ks) >= |Plan(cfg, d)|)
    decreases |ks|
  {
    PlanEmpty(cfg, d);
    if ks != [] {
      StepJoins(cfg, d, ks[0]);
      var o := Step(cfg, d, ks[0]);
      RunFollowsPlan(cfg, o.dev, ks[1..]);
      var (e, txs) := Run(cfg, o.dev, ks[1..]);
      Joined(o.txs, txs, Plan(cfg, d), Plan(cfg, o.dev), Plan(cfg, e), if ks[0].0 then 1 else 0, Accepted(ks[1..]));
    }
  }

  lemma {:induction false} RestCount(cfg: Config, fb: seq<Octet>, row: nat, sent: nat)
    requires |fb| == ROWS * COLS && row < ROWS && sent <= COLS
    ensures |Rest(cfg, fb, row, sent)| == (COLS - sent + Burst(cfg) - 1) / Burst(cfg) + |Rows(cfg, fb, row + 1)|
    decreases COLS - sent
  {
    var b := Burst(cfg);
    if sent == COLS {
      ModUnique(b - 1, b, 0, b - 1);
    } else if COLS - sent <= b {
      RestCount(cfg, fb, row, sent + (COLS - sent));
      ModUnique(COLS - sent + b - 1, b, 1, COLS - sent - 1);
      ModUnique(b - 1, b, 0, b - 1);
    } else {
      RestCount(cfg, fb, row, sent + b);
      OneMore(COLS - sent - 1, b);
    }
  }

  lemma OneMore(x: nat, b: nat)
    requires b > 0
    ensures (x + b) / b == x / b + 1
  {
    var q, r := x / b, x % b;
    assert x == q * b + r;
    assert (q + 1) * b == q * b + b;
    ModUnique(x + b, b, q + 1, r);
  }

  /** A flush is two addresses and ceil(16 / burst) chunks a row. */
  lemma PlanLength(cfg: Config, d: Dev)
    requires |d.fb| == ROWS * COLS
    ensures InFlush(Flushing(d))
    ensures |Plan(cfg, Flushing(d))| == 2 + 2 * ((COLS + Burst(cfg) - 1) / Burst(cfg))
  {
    RestCount(cfg, d.fb, 0, 0);
    RestCount(cfg, d.fb, 1, 0);
  }

  lemma ApplyAppend(ram: Ram, a: seq<Tx>, b: seq<Tx>)
    requires RamOk(ram)
    ensures ApplyAll(ram, a + b) == ApplyAll(ApplyAll(ram, a), b)
    decreases |a|
  {
    if a == [] {
      assert a + b == b;
    } else {
      assert (a + b)[1..] == a[1..] + b;
      ApplyAppend(Apply(ram, a[0]), a[1..], b);
    }
  }

  lemma WroteTwice(d: Dev, ram: Ram, e: Dev, mid: Ram, f: Dev, after: Ram)
    requires Wrote(d, ram, e, mid) && Wrote(e, mid, f, after) && e.fb == d.fb
    ensures Wrote(d, ram, f, after)
  {
  }

  /** Whatever the burst, the refusals and the extra calls: the display's cells
      that the flush passed show the frame, the others what they showed before. */
  lemma {:induction false} RunWrites(cfg: Config, d: Dev, ks: seq<(bool, bool, bool)>, ram: Ram)
    requires InFlush(d) && AddressOk(d, ram) && cfg.cmdByte != 0x40
    ensures var (e, txs) := Run(cfg, d, ks);
      InFlush(e) && e.fb == d.fb && AddressOk(e, ApplyAll(ram, txs)) && Wrote(d, ram, e, ApplyAll(ram, txs))
    decreases |ks|
  {
    if ks != [] {
      StepWrites(cfg, d, ks[0], ram);
      var o := Step(cfg, d, ks[0]);
      var mid := ApplyAll(ram, o.txs);
      RunWrites(cfg, o.dev, ks[1..], mid);
      var (e, txs) := Run(cfg, o.dev, ks[1..]);
      ApplyAppend(ram, o.txs, txs);
      WroteTwice(d, ram, o.dev, mid, e, ApplyAll(mid, txs));
    }
  }

  ghost predicate Shows(ram: Ram, d: Dev)
    requires |d.fb| == ROWS * COLS
  {
    |ram.cells| == 0x80 && forall r: nat, c: nat :: r < ROWS && c < COLS ==> Cell(ram, r, c) == Frame(d, r, c)
  }

  /** On completion the display equals the frame. */
  lemma FlushShowsFrame(cfg: Config, d: Dev, ks: seq<(bool, bool, bool)>, ram: Ram)
    requires |d.fb| == ROWS * COLS && RamOk(ram) && cfg.cmdByte != 0x40
    requires Over(Run(cfg, Flushing(d), ks).0)
    ensures var (e, txs) := Run(cfg, Flushing(d), ks);
      e.fb == d.fb && Shows(ApplyAll(ram, txs), d)
  {
    RunWrites(cfg, Flushing(d), ks, ram);
  }

  // ----- drawing -----

  /** A text is drawn from its column on, up to the end of the row, a NUL or a
      newline, with unprintable characters shown as '?'; no other cell changes, and
      the frame needs flushing. A text outside the frame changes nothing. */
  lemma DrawMeans(d: Dev, col: nat, row: nat, text: seq<Octet>, r: nat, c: nat)
    requires |d.fb| == ROWS * COLS && r < ROWS && c < COLS
    ensures |Draw(d, col, row, text).fb| == ROWS * COLS
    ensures Frame(Draw(d, col, row, text), r, c)
         == if r == row && col <= c && c - col < DrawLength(text, COLS - col) then
              (if 0x20 <= text[c - col] <= 0x7E then text[c - col] else 0x3F)
            else Frame(d, r, c)
    ensures row < 2 && col < 16 ==> Draw(d, col, row, text) == d.(fb := Draw(d, col, row, text).fb, dirty := true)
    ensures row >= 2 || col >= 16 ==> Draw(d, col, row, text) == d
  {
  }

  /** Drawing during a flush: on completion the display shows the frame if and
      only if the drawing changed no cell that had already been sent. Either way
      the frame then counts as clean, so a lost drawing stays lost. */
  lemma DrawDuringFlush(cfg: Config, d: Dev, ram: Ram, col: nat, row: nat, text: seq<Octet>, ks: seq<(bool, bool, bool)>)
    requires InFlush(d) && !Over(d) && AddressOk(d, ram) && cfg.cmdByte != 0x40
    requires forall r: nat, c: nat :: r < ROWS && c < COLS && Sent(d, r, c) ==> Cell(ram, r, c) == Frame(d, r, c)
    requires Over(Run(cfg, Draw(d, col, row, text), ks).0)
    ensures var drawn := Draw(d, col, row, text);
      var (e, txs) := Run(cfg, drawn, ks);
      && e.fb == drawn.fb && !e.dirty
      && (Shows(ApplyAll(ram, txs), e) <==>
            forall r: nat, c: nat :: r < ROWS && c < COLS && Sent(d, r, c) ==> Frame(drawn, r, c) == Frame(d, r, c))
  {
    var drawn := Draw(d, col, row, text);
    DrawMeans(d, col, row, text, 0, 0);
    RunWrites(cfg, drawn, ks, ram);
    var (e, txs) := Run(cfg, drawn, ks);
    var after := ApplyAll(ram, txs);
    forall r: nat, c: nat | r < ROWS && c < COLS
      ensures Cell(after, r, c) == if Sent(d, r, c) then Frame(d, r, c) else Frame(drawn, r, c)
    {
      assert Sent(drawn, r, c) == Sent(d, r, c) && Sent(e, r, c);
    }
    assert Shows(after, e) ==> forall r: nat, c: nat :: r < ROWS && c < COLS && Sent(d, r, c) ==> Cell(after, r, c) == Frame(e, r, c);
  }

  const YES := (true, true, true)

  function AllYes(n: nat): seq<(bool, bool, bool)> {
    if n == 0 then [] else [YES] + AllYes(n - 1)
  }

  lemma {:induction false} AllAccepted(n: nat)
    ensures Accepted(AllYes(n)) == n
  {
    if n > 0 {
      AllAccepted(n - 1);
      assert AllYes(n)[1..] == AllYes(n - 1);
    }
  }

  /** A flush whose submits are accepted comes to its second row. */
  lemma {:induction false} ReachRowOne(cfg: Config, d: Dev) returns (ks: seq<(bool, bool, bool)>)
    requires InFlush(d) && d.row == 0
    ensures var e := Run(cfg, d, ks).0; InFlush(e) && e.st == FLUSH_POS && e.row == 1 && e.fb == d.fb
    decreases d.st == FLUSH_POS, COLS - d.sent
  {
    var o := Step(cfg, d, YES);
    if o.dev.row == 1 {
      ks := [YES];
      assert ks[1..] == [];
    } else {
      var rest := ReachRowOne(cfg, o.dev);
      ks := [YES] + rest;
      assert ks[1..] == rest;
    }
  }

  /** A character drawn into the first row while the second one is sent. */
  ghost predicate LosesDraw(cfg: Config, d: Dev, ram: Ram, ch: Octet, ks: seq<(bool, bool, bool)>, more: seq<(bool, bool, bool)>)
    requires |d.fb| == ROWS * COLS && RamOk(ram)
  {
    var (mid, before) := Run(cfg, Flushing(d), ks);
    var drawn := Draw(mid, 0, 0, [ch]);
    var (e, after) := Run(cfg, drawn, more);
    && InFlush(mid) && !Over(mid) && Over(e) && !Shows(ApplyAll(ApplyAll(ram, before), after), e)
    && forall k :: RequestFlush(cfg, e, k).dev == e
  }

  /** From any frame and display a flush can be run so that a new character is
      lost: the flush completes, the display does not show the frame, and
      flushing again does nothing. */
  lemma DrawCanBeLost(cfg: Config, d: Dev, ram: Ram, ch: Octet)
    requires |d.fb| == ROWS * COLS && RamOk(ram) && cfg.cmdByte != 0x40
    requires ch != 0 && ch != 10 && Printable(ch) != Frame(d, 0, 0)
    ensures exists ks, more :: LosesDraw(cfg, d, ram, ch, ks, more)
  {
    var ks := ReachRowOne(cfg, Flushing(d));
    var (mid, before) := Run(cfg, Flushing(d), ks);
    RunWrites(cfg, Flushing(d), ks, ram);
    var drawn := Draw(mid, 0, 0, [ch]);
    DrawMeans(mid, 0, 0, [ch], 0, 0);
    var more := AllYes(|Plan(cfg, drawn)|);
    AllAccepted(|Plan(cfg, drawn)|);
    RunFollowsPlan(cfg, drawn, more);
    DrawDuringFlush(cfg, mid, ApplyAll(ram, before), 0, 0, [ch], more);
    assert Sent(mid, 0, 0) && Frame(drawn, 0, 0) != Frame(mid, 0, 0);
    assert LosesDraw(cfg, d, ram, ch, ks, more);
  }

  /** A flush request is served exactly when the frame is dirty and the driver is
      idle or ready; otherwise it does nothing. */
  lemma FlushServed(cfg: Config, d: Dev, k: (bool, bool, bool))
    requires |d.fb| == ROWS * COLS
    ensures var o := RequestFlush(cfg, d, k);
      if d.dirty && (d.st == IDLE || d.st == LCD_READY) then
        InFlush(o.dev) && !Over(o.dev) && (o.dev, o.txs) == Run(cfg, Flushing(d), [k])
      else o.dev == d && o.txs == []
  {
    var ks, o := [k], Step(cfg, Flushing(d), k);
    assert ks[0] == k && ks[1..] == [] && o.txs + [] == o.txs;
    assert Run(cfg, o.dev, []) == (o.dev, []);
  }

  /** A driver at rest that is asked to flush after a drawing shows it: however the
      submits are refused and repeated, the flush is over once enough were accepted,
      and then the display shows the whole frame, the drawing included. */
  lemma DrawnIsShown(
    cfg: Config, d: Dev, ram: Ram, col: nat, row: nat, text: seq<Octet>, k: (bool, bool, bool), ks: seq<(bool, bool, bool)>)
    requires |d.fb| == ROWS * COLS && (d.st == IDLE || d.st == LCD_READY) && RamOk(ram) && cfg.cmdByte != 0x40
    requires row < ROWS && col < COLS
    ensures var drawn := Draw(d, col, row, text); var first := RequestFlush(cfg, drawn, k);
      var (e, txs) := Run(cfg, first.dev, ks);
      && (Over(e) <==> Accepted([k] + ks) >= 2 + 2 * ((COLS + Burst(cfg) - 1) / Burst(cfg)))
      && (Over(e) ==> e.fb == drawn.fb && Shows(ApplyAll(ram, first.txs + txs), drawn))
  {
    var drawn := Draw(d, col, row, text);
    DrawMeans(d, col, row, text, 0, 0);
    var all := [k] + ks;
    assert all[0] == k && all[1..] == ks;
    PlanLength(cfg, drawn);
    RunFollowsPlan(cfg, Flushing(drawn), all);
    if Over(Run(cfg, Flushing(drawn), all).0) {
      FlushShowsFrame(cfg, drawn, all, ram);
    }
  }

  // ----- notes and delays -----

  /** A step tells that the driver is ready when initialisation ends, and that the
      display is up to date when a flush ends; it tells nothing else. */
  lemma NotesMean(cfg: Config, d: Dev, k: (bool, bool, bool))
    requires |d.fb| == ROWS * COLS && (d.st == FLUSH_POS || d.st == FLUSH_DATA ==> InFlush(d))
    ensures var o := Step(cfg, d, k);
      && (o.posts == [READY] <==> d.st == LCD_INIT && o.dev.st == LCD_READY)
      && (o.posts == [UPDATED] <==> d.st == FLUSH_DATA && Over(o.dev))
      && (o.posts == [] || o.posts == [READY] || o.posts == [UPDATED])
  {
  }

  /** The time until the next step: after the RGB chip's registers 5 ms; after the
      first command as configured, after the one that switches the follower on
      220 ms, after clearing 3 ms, after the others 2 ms; between two chunks of a
      row as configured, if at all; otherwise the transfer's end is waited for. */
  lemma WaitsMean(cfg: Config, d: Dev, k: (bool, bool, bool))
    requires |d.fb| == ROWS * COLS && d.idx <= 11 && (d.st == FLUSH_POS || d.st == FLUSH_DATA ==> InFlush(d))
    ensures var o := Step(cfg, d, k);
      && (d.st == RGB_INIT && o.dev.st == LCD_INIT ==> o.delay == Some(5))
      && (d.st == LCD_INIT && o.txs != [] ==>
            var cmd := o.txs[0].bytes[1]; var first := cfg.firstDelay % 0x100;
            o.delay == Some(if d.idx == 0 then (if first == 0 then 1 else first) else if cmd == 0x6C then 220
                            else if cmd == 0x01 then 3 else 2))
      && (d.st == FLUSH_DATA && o.dev.st == FLUSH_DATA && o.txs != [] ==>
            o.delay == if cfg.pause > 0 then Some(cfg.pause) else None)
      && (o.delay.Some? ==> o.dev.st == if d.st == RGB_INIT then LCD_INIT else d.st)
  {
  }

  // ----- initialisation -----

  /** The commands of the fixed sequence from index i on. */
  function Setup(cfg: Config, i: nat): (r: seq<Tx>)
    ensures |r| == if i < 11 then 11 - i else 0
    decreases 11 - i
  {
    if i >= 11 then [] else [Command(cfg, InitCommands(cfg)[i])] + Setup(cfg, i + 1)
  }

  lemma PrefixMore(first: seq<Tx>, rest: seq<Tx>, all: seq<Tx>)
    requires rest <= all
    ensures first + rest <= first + all
  {
  }

  lemma InitStep(cfg: Config, d: Dev, k: (bool, bool, bool))
    requires |d.fb| == ROWS * COLS && d.st == LCD_INIT && d.idx <= 11
    ensures var o := Step(cfg, d, k);
      && o.dev.fb == d.fb
      && (if d.idx == 11 then o.dev == d.(st := LCD_READY, idx := 0) && o.txs == []
          else if !k.0 then o.dev == d && o.txs == []
          else o.dev == d.(idx := d.idx + 1) && o.txs + Setup(cfg, d.idx + 1) == Setup(cfg, d.idx) && |o.txs| == 1)
  {
  }

  /** The commands accepted while initialising from index idx on are the rest of
      the fixed sequence, in order; the controller is set up completely only when
      the sequence began at 0, since a restart does not rewind the index. */
  lemma {:induction false} InitSends(cfg: Config, d: Dev, ks: seq<(bool, bool, bool)>)
    requires |d.fb| == ROWS * COLS && d.st == LCD_INIT && d.idx <= 11
    ensures var (e, txs) := Run(cfg, d, ks);
      && txs <= Setup(cfg, d.idx)
      && (e.st == LCD_READY || (e.st == LCD_INIT && e.idx == d.idx + |txs|))
      && (e.st == LCD_READY ==> txs == Setup(cfg, d.idx) && e.idx == 0)
    decreases |ks|
  {
    if ks != [] {
      InitStep(cfg, d, ks[0]);
      var o := Step(cfg, d, ks[0]);
      if o.dev.st == LCD_INIT {
        InitSends(cfg, o.dev, ks[1..]);
        PrefixMore(o.txs, Run(cfg, o.dev, ks[1..]).1, Setup(cfg, o.dev.idx));
      } else {
        Quiet(cfg, o.dev, ks[1..]);
      }
    }
  }

  lemma {:induction false} Quiet(cfg: Config, d: Dev, ks: seq<(bool, bool, bool)>)
    requires |d.fb| == ROWS * COLS && (d.st == LCD_READY || d.st == IDLE)
    ensures Run(cfg, d, ks) == (d, [])
    decreases |ks|
  {
    if ks != [] {
      Quiet(cfg, d, ks[1..]);
      assert Step(cfg, d, ks[0]) == Out(d, [], [], None);
      assert [] + Run(cfg, d, ks[1..]).1 == [];
    }
  }

  /** The transactions that go to the display. */
  function ToLcd(txs: seq<Tx>): seq<Tx> {
    if txs == [] then [] else (if txs[0].toLcd then [txs[0]] else []) + ToLcd(txs[1..])
  }

  lemma {:induction false} ToLcdAppend(a: seq<Tx>, b: seq<Tx>)
    ensures ToLcd(a + b) == ToLcd(a) + ToLcd(b)
  {
    if a == [] {
      assert a + b == b;
    } else {
      assert (a + b)[1..] == a[1..] + b;
      ToLcdAppend(a[1..], b);
      Regroup(if a[0].toLcd then [a[0]] else [], ToLcd(a[1..]), ToLcd(b));
    }
  }

  lemma Regroup(a: seq<Tx>, b: seq<Tx>, c: seq<Tx>)
    ensures (a + b) + c == a + (b + c)
  {
  }

  lemma {:induction false} NoneToLcd(txs: seq<Tx>)
    requires forall i :: 0 <= i < |txs| ==> !txs[i].toLcd
    ensures ToLcd(txs) == []
  {
    if txs != [] {
      NoneToLcd(txs[1..]);
    }
  }

  lemma {:induction false} SetupToLcd(cfg: Config, i: nat)
    ensures ToLcd(Setup(cfg, i)) == Setup(cfg, i)
    decreases 11 - i
  {
    if i < 11 {
      SetupToLcd(cfg, i + 1);
      assert Setup(cfg, i)[1..] == Setup(cfg, i + 1);
    }
  }

  /** Initialisation from index idx on: when the driver is ready the display got
      exactly the rest of the sequence, once each and in order. */
  lemma {:induction false} StartUp(cfg: Config, d: Dev, ks: seq<(bool, bool, bool)>)
    requires |d.fb| == ROWS * COLS && d.st == RGB_INIT && d.idx <= 11
    ensures var (e, txs) := Run(cfg, d, ks);
      e.st == LCD_READY ==> ToLcd(txs) == Setup(cfg, d.idx)
    decreases |ks|
  {
    if ks != [] {
      var o := Step(cfg, d, ks[0]);
      var (e, txs) := Run(cfg, o.dev, ks[1..]);
      NoneToLcd(o.txs);
      ToLcdAppend(o.txs, txs);
      if o.dev.st == RGB_INIT {
        StartUp(cfg, o.dev, ks[1..]);
      } else {
        InitSends(cfg, o.dev, ks[1..]);
        SetupToLcd(cfg, d.idx);
      }
    }
  }

  /** The registers of the RGB chip are written in order up to the first refusal;
      only if none was refused, or there is no chip, does the driver go on. */
  lemma RgbStep(cfg: Config, d: Dev, k: (bool, bool, bool))
    requires |d.fb| == ROWS * COLS && d.st == RGB_INIT
    ensures var o := Step(cfg, d, k);
      var taken := if !cfg.rgb || !k.0 then 0 else if !k.1 then 1 else if !k.2 then 2 else 3;
      && o.txs == [Tx(false, [0, 0]), Tx(false, [1, 5]), Tx(false, [8, 0xAA])][..taken]
      && o.dev == if cfg.rgb && taken < 3 then d else d.(st := LCD_INIT)
  {
  }

  // ----- what the commands do to the controller -----

  /** The controller's settings: extended instructions, two rows, contrast from 0
      to 63, booster, follower, oscillator, display, cursor and blinking, direction
      and shift of writing, and the memory. */
  datatype Panel = Panel(
    ext: bool, twoRows: bool, contrast: nat, booster: bool, follower: bool, osc: nat,
    on: bool, cursor: bool, blink: bool, forward: bool, shift: bool, ram: Ram)

  predicate Bit(b: Octet, weight: nat)
    requires weight > 0
  {
    b / weight % 2 == 1
  }

  function Obey(p: Panel, b: Octet): Panel {
    if b >= 0x80 then p.(ram := p.ram.(addr := b - 0x80))
    else if b >= 0x70 then if p.ext then p.(contrast := p.contrast / 16 * 16 + b % 16) else p
    else if b >= 0x60 then if p.ext then p.(follower := Bit(b, 8)) else p
    else if b >= 0x50 then if p.ext then p.(booster := Bit(b, 4), contrast := b % 4 * 16 + p.contrast % 16) else p
    else if b >= 0x40 then p
    else if b >= 0x20 then p.(ext := Bit(b, 1), twoRows := Bit(b, 8))
    else if b >= 0x10 then if p.ext then p.(osc := b % 8) else p
    else if b >= 8 then p.(on := Bit(b, 4), cursor := Bit(b, 2), blink := Bit(b, 1))
    else if b >= 4 then p.(forward := Bit(b, 2), shift := Bit(b, 1))
    else if b >= 2 then p.(ram := p.ram.(addr := 0))
    else if b == 1 then p.(ram := Ram(0, seq(0x80, _ => 0x20)), forward := true)
    else p
  }

  function ObeyAll(p: Panel, txs: seq<Tx>): Panel
    decreases |txs|
  {
    if txs == [] then p else ObeyAll(if |txs[0].bytes| == 2 then Obey(p, txs[0].bytes[1]) else p, txs[1..])
  }

  lemma ObeySetup(cfg: Config, p: Panel, i: nat)
    requires i < 11
    ensures ObeyAll(p, Setup(cfg, i)) == ObeyAll(Obey(p, InitCommands(cfg)[i]), Setup(cfg, i + 1))
  {
    assert Setup(cfg, i)[1..] == Setup(cfg, i + 1);
  }

  lemma ObeyTwo(cfg: Config, p: Panel, i: nat, a: Octet, b: Octet)
    requires i < 10 && InitCommands(cfg)[i] == a && InitCommands(cfg)[i + 1] == b
    ensures ObeyAll(p, Setup(cfg, i)) == ObeyAll(Obey(Obey(p, a), b), Setup(cfg, i + 2))
  {
    ObeySetup(cfg, p, i);
    ObeySetup(cfg, Obey(p, a), i + 1);
  }

  lemma ContrastSet(cfg: Config, p: Panel)
    requires p.ext
    ensures ObeyAll(p, Setup(cfg, 3))
         == ObeyAll(p.(booster := true, contrast := cfg.contrastHigh % 4 * 16 + cfg.contrastLow % 16), Setup(cfg, 5))
  {
    ObeyTwo(cfg, p, 3, 0x70 + cfg.contrastLow % 0x10, 0x5C + cfg.contrastHigh % 4);
    Contrasted(p, cfg.contrastLow, cfg.contrastHigh);
  }

  lemma PanelContrast(cfg: Config, p: Panel) returns (q: Panel)
    requires p.ext
    ensures ObeyAll(p, Setup(cfg, 3)) == ObeyAll(q, Setup(cfg, 7))
    ensures q == p.(ext := false, twoRows := true, booster := true, follower := true,
                    contrast := cfg.contrastHigh % 4 * 16 + cfg.contrastLow % 16)
  {
    ContrastSet(cfg, p);
    q := PanelFollower(cfg, p.(booster := true, contrast := cfg.contrastHigh % 4 * 16 + cfg.contrastLow % 16));
  }

  lemma PanelFollower(cfg: Config, p: Panel) returns (q: Panel)
    requires p.ext
    ensures ObeyAll(p, Setup(cfg, 5)) == ObeyAll(q, Setup(cfg, 7))
    ensures q == p.(ext := false, twoRows := true, follower := true)
  {
    var p6 := Obey(p, InitCommands(cfg)[5]);
    ObeySetup(cfg, p, 5);
    q := Obey(p6, InitCommands(cfg)[6]);
    ObeySetup(cfg, p6, 6);
  }

  lemma Contrasted(p: Panel, low: nat, high: nat)
    requires p.ext
    ensures Obey(Obey(p, 0x70 + low % 0x10), 0x5C + high % 4) == p.(booster := true, contrast := high % 4 * 16 + low % 16)
  {
  }

  lemma Extended(cfg: Config, p: Panel)
    ensures ObeyAll(p, Setup(cfg, 0)) == ObeyAll(p.(ext := true, twoRows := true, osc := 4), Setup(cfg, 3))
  {
    ObeyTwo(cfg, p, 0, 0x38, 0x39);
    TwoRows(p);
    Oscillates(p.(ext := true, twoRows := true));
    ObeySetup(cfg, p.(ext := true, twoRows := true), 2);
  }

  lemma TwoRows(p: Panel)
    ensures Obey(Obey(p, 0x38), 0x39) == p.(ext := true, twoRows := true)
  {
  }

  lemma Oscillates(p: Panel)
    requires p.ext
    ensures Obey(p, 0x14) == p.(osc := 4)
  {
  }

  lemma SwitchedOn(cfg: Config, p: Panel)
    ensures ObeyAll(p, Setup(cfg, 7))
         == p.(on := true, cursor := false, blink := false, forward := true, shift := false, ram := Ram(0, seq(0x80, _ => 0x20)))
  {
    var blank := Ram(0, seq(0x80, _ => 0x20));
    ObeyTwo(cfg, p, 7, 0x0C, 0x01);
    var q := p.(on := true, cursor := false, blink := false, forward := true, ram := blank);
    assert Obey(Obey(p, 0x0C), 0x01) == q;
    ObeyTwo(cfg, q, 9, 0x06, 0x02);
  }

  /** Whatever state the controller was in, the eleven commands leave it with two
      rows, the configured contrast, booster and follower, the display on without a
      cursor, writing forward, the memory blank and the address at its start. */
  lemma PanelReady(cfg: Config, p: Panel)
    ensures ObeyAll(p, Setup(cfg, 0))
         == Panel(false, true, cfg.contrastHigh % 4 * 16 + cfg.contrastLow % 16, true, true, 4,
                  true, false, false, true, false, Ram(0, seq(0x80, _ => 0x20)))
  {
    Extended(cfg, p);
    var q := PanelContrast(cfg, p.(ext := true, twoRows := true, osc := 4));
    SwitchedOn(cfg, q);
  }

  /** What was last written to a register of the RGB chip. */
  function Register(txs: seq<Tx>, r: Octet): Option<Octet> {
    if txs == [] then None
    else
      var last := txs[|txs| - 1];
      if !last.toLcd && |last.bytes| == 2 && last.bytes[0] == r then Some(last.bytes[1])
      else Register(txs[..|txs| - 1], r)
  }

  lemma {:induction false} RegisterKept(a: seq<Tx>, b: seq<Tx>, r: Octet)
    requires forall i :: 0 <= i < |b| ==> b[i].toLcd
    ensures Register(a + b, r) == Register(a, r)
    decreases |b|
  {
    if b == [] {
      assert a + b == a;
    } else {
      assert (a + b)[..|a + b| - 1] == a + b[..|b| - 1];
      RegisterKept(a, b[..|b| - 1], r);
    }
  }

  lemma {:induction false} RegisterLast(a: seq<Tx>, b: seq<Tx>, r: Octet)
    requires Register(b, r).Some?
    ensures Register(a + b, r) == Register(b, r)
    decreases |b|
  {
    assert (a + b)[..|a + b| - 1] == a + b[..|b| - 1];
    if Register(b[..|b| - 1], r).Some? {
      RegisterLast(a, b[..|b| - 1], r);
    }
  }

  lemma RgbWritten()
    ensures Register(RgbInit(), 0) == Some(0) && Register(RgbInit(), 1) == Some(5) && Register(RgbInit(), 8) == Some(0xAA)
    ensures |RgbInit()| == 3
  {
    var w := RgbInit();
    assert w[..2] == [w[0], w[1]] && w[..2][..1] == [w[0]];
  }

  lemma {:induction false} SetupOnLcd(cfg: Config, i: nat)
    ensures forall k :: 0 <= k < |Setup(cfg, i)| ==> Setup(cfg, i)[k].toLcd
    decreases 11 - i
  {
    if i < 11 {
      SetupOnLcd(cfg, i + 1);
    }
  }

  /** The RGB chip, where there is one, has all its registers set before the display
      gets its first command, whatever was refused on the way. */
  lemma {:induction false} RgbReady(cfg: Config, d: Dev, ks: seq<(bool, bool, bool)>)
    requires |d.fb| == ROWS * COLS && d.st == RGB_INIT && d.idx <= 11 && cfg.rgb
    ensures var (e, txs) := Run(cfg, d, ks);
      if e.st == RGB_INIT then ToLcd(txs) == []
      else Register(txs, 0) == Some(0) && Register(txs, 1) == Some(5) && Register(txs, 8) == Some(0xAA)
    decreases |ks|
  {
    if ks != [] {
      var o := Step(cfg, d, ks[0]);
      var (e, txs) := Run(cfg, o.dev, ks[1..]);
      NoneToLcd(o.txs);
      ToLcdAppend(o.txs, txs);
      if o.dev.st == RGB_INIT {
        RgbReady(cfg, o.dev, ks[1..]);
        if e.st != RGB_INIT {
          RegisterLast(o.txs, txs, 0);
          RegisterLast(o.txs, txs, 1);
          RegisterLast(o.txs, txs, 8);
        }
      } else {
        InitSends(cfg, o.dev, ks[1..]);
        SetupOnLcd(cfg, o.dev.idx);
        RgbWritten();
        RegisterKept(o.txs, txs, 0);
        RegisterKept(o.txs, txs, 1);
        RegisterKept(o.txs, txs, 8);
      }
    }
  }

  /** A start event, in any state and whatever is refused afterwards: when the
      driver is ready, the display got all eleven commands if and only if the
      index stood at 0; otherwise it got the rest of the sequence only. */
  lemma StartSends(cfg: Config, d: Dev, k: (bool, bool, bool), ks: seq<(bool, bool, bool)>)
    requires |d.fb| == ROWS * COLS && d.idx <= 11
    requires Run(cfg, OnStart(cfg, d, k).dev, ks).0.st == LCD_READY
    ensures var o := OnStart(cfg, d, k); var sent := ToLcd(o.txs + Run(cfg, o.dev, ks).1);
      sent == Setup(cfg, d.idx) && (sent == Setup(cfg, 0) <==> d.idx == 0)
  {
    var all := [k] + ks;
    assert all[0] == k && all[1..] == ks;
    StartUp(cfg, d.(st := RGB_INIT), all);
  }

  lemma {:induction false} ReadyAfter(cfg: Config, d: Dev)
    requires |d.fb| == ROWS * COLS && d.st == LCD_INIT && d.idx <= 11
    ensures Run(cfg, d, AllYes(12 - d.idx)).0.st == LCD_READY
    decreases 11 - d.idx
  {
    var n := 12 - d.idx;
    assert AllYes(n)[0] == YES && AllYes(n)[1..] == AllYes(n - 1);
    var o := Step(cfg, d, YES);
    if d.idx < 11 {
      ReadyAfter(cfg, o.dev);
    } else {
      assert Run(cfg, o.dev, AllYes(n - 1)) == (o.dev, []);
    }
  }

  /** A start, one accepted command, and a second start: the driver becomes ready
      although the second initialisation left out the first command. */
  lemma RestartSkips(cfg: Config, d: Dev)
    requires |d.fb| == ROWS * COLS && d.idx == 0
    ensures var once := Step(cfg, OnStart(cfg, d, YES).dev, YES).dev;
      var again := OnStart(cfg, once, YES);
      var (e, txs) := Run(cfg, again.dev, AllYes(11));
      once.idx == 1 && e.st == LCD_READY && ToLcd(again.txs + txs) == Setup(cfg, 1) != Setup(cfg, 0)
  {
    var once := Step(cfg, OnStart(cfg, d, YES).dev, YES).dev;
    var again := OnStart(cfg, once, YES);
    ReadyAfter(cfg, again.dev);
    StartSends(cfg, once, YES, AllYes(12 - again.dev.idx));
  }
}
