/** The display driver in place: its static state and frame, each call proved to
    do what the functions of `Lcd` say. `accepted` is what the I2C service took. */
module LcdObject {
  import opened Wrappers
  import opened Lcd

  class Driver {
    const cfg: Config
    var st: State
    var row: nat
    var col: nat
    var sent: nat
    var dirty: bool
    var idx: nat
    const fb: array<Octet>
    var accepted: seq<Tx>
    var posts: seq<Note>
    var delay: Option<nat>

    ghost function Value(): Dev
      reads this, fb
    {
      Dev(st, row, col, sent, dirty, idx, fb[..])
    }

    /** The object went from this value to the outcome o. */
    twostate predicate Became(o: Out)
      reads this, fb
    {
      Value() == o.dev && accepted == old(accepted) + o.txs && posts == old(posts) + o.posts && delay == o.delay
    }

    /** `lcd1602rgb_init` */
    constructor (cfg: Config)
      ensures this.cfg == cfg && fb.Length == ROWS * COLS && fresh(fb)
      ensures st == IDLE && !dirty && idx == 0 && row == 0 && col == 0 && sent == 0
      ensures forall i :: 0 <= i < fb.Length ==> fb[i] == 0x20
      ensures accepted == [] && posts == [] && delay == None
    {
      this.cfg := cfg;
      st, row, col, sent, dirty, idx := IDLE, 0, 0, 0, false, 0;
      fb := new Octet[ROWS * COLS](_ => 0x20);
      accepted, posts, delay := [], [], None;
    }

    /** `i2c_tx_now` */
    method Transmit(tx: Tx, ok: bool) returns (r: bool)
      modifies this`accepted
      ensures r == ok && accepted == old(accepted) + if ok then [tx] else []
    {
      if ok {
        accepted := accepted + [tx];
      }
      r := ok;
    }

    /** `rgb_init_sequence` */
    method RgbInitSequence(k: (bool, bool, bool)) returns (r: bool)
      modifies this`accepted
      ensures r == (!cfg.rgb || (k.0 && k.1 && k.2))
      ensures accepted == old(accepted)
        + if !cfg.rgb || !k.0 then [] else if !k.1 then RgbInit()[..1] else if !k.2 then RgbInit()[..2] else RgbInit()
    {
      if !cfg.rgb {
        return true;
      }
      r := Transmit(Tx(false, [0, 0]), k.0);
      if r {
        r := Transmit(Tx(false, [1, 5]), k.1);
        if r {
          r := Transmit(Tx(false, [8, 0xAA]), k.2);
        }
      }
    }

    /** `lcd_init_next_step` */
    method InitNextStep(ok: bool) returns (wait: nat, finished: bool, submitted: bool)
      modifies this`accepted, this`idx
      ensures finished == (old(idx) >= 11) && submitted == (finished || ok)
      ensures finished ==> idx == 0 && accepted == old(accepted)
      ensures !finished ==>
        && idx == old(idx) + (if ok then 1 else 0)
        && accepted == old(accepted) + (if ok then [Command(cfg, InitCommands(cfg)[old(idx)])] else [])
        && (ok ==> wait == InitDelays(cfg)[old(idx)])
    {
      wait, finished := 0, false;
      if idx >= 11 {
        idx, finished := 0, true;
        return wait, finished, true;
      }
      submitted := Transmit(Command(cfg, InitCommands(cfg)[idx]), ok);
      if submitted {
        wait := InitDelays(cfg)[idx];
        idx := idx + 1;
      }
    }

    /** `step` */
    method Step(k: (bool, bool, bool))
      requires fb.Length == ROWS * COLS
      modifies this
      ensures Became(Lcd.Step(cfg, old(Value()), k))
    {
      delay := None;
      match st {
        case IDLE =>
        case LCD_READY =>
        case RGB_INIT =>
          var ok := RgbInitSequence(k);
          if ok {
            st := LCD_INIT;
            delay := Some(5);
          }
        case LCD_INIT =>
          var wait, finished, submitted := InitNextStep(k.0);
          if submitted {
            if finished {
              st := LCD_READY;
              posts := posts + [READY];
            } else {
              delay := Some(if wait == 0 then 1 else wait);
            }
          }
        case FLUSH_POS =>
          var addr := RowAddress(row) + col;
          sent := 0;
          var ok := Transmit(SetAddress(cfg, addr), k.0);
          if ok {
            st := FLUSH_DATA;
          }
        case FLUSH_DATA => SendData(k.0);
      }
    }

    /** The reaction of the event loop to the system's start event. */
    method OnStart(k: (bool, bool, bool))
      requires fb.Length == ROWS * COLS
      modifies this
      ensures Became(Lcd.OnStart(cfg, old(Value()), k))
    {
      st := RGB_INIT;
      Step(k);
    }

    /** The data state of `step`. */
    method SendData(ok: bool)
      requires fb.Length == ROWS * COLS && delay == None
      modifies this
      ensures Became(DataStep(cfg, old(Value()), ok))
    {
      if row >= ROWS {
        st := IDLE;
        return;
      }
      var left := if sent < COLS then COLS - sent else 0;
      var chunk := if left > Burst(cfg) then Burst(cfg) else left;
      var submitted := true;
      if chunk > 0 {
        submitted := Transmit(DataTx(fb[row * COLS + sent..row * COLS + sent + chunk]), ok);
      }
      if !submitted {
        return;
      }
      Chunk(chunk);
    }

    /** The rest of the data state once a chunk is on its way. */
    method Chunk(chunk: nat)
      requires fb.Length == ROWS * COLS && delay == None && row < ROWS
      modifies this`sent, this`row, this`st, this`dirty, this`posts, this`delay
      ensures Became(ChunkSent(cfg, old(Value()), chunk, []))
    {
      sent := sent + chunk;
      if sent >= COLS {
        row := row + 1;
        if row >= ROWS {
          st, dirty := IDLE, false;
          posts := posts + [UPDATED];
        } else {
          st := FLUSH_POS;
        }
      } else if cfg.pause > 0 {
        delay := Some(cfg.pause);
      }
    }

    /** `lcd1602rgb_draw_text` */
    method DrawText(c: nat, r: nat, text: seq<Octet>)
      requires fb.Length == ROWS * COLS
      modifies this`dirty, fb
      ensures Value() == Draw(old(Value()), c, r, text)
    {
      if r >= ROWS || c >= COLS {
        return;
      }
      ghost var was := Value();
      var max := COLS - c;
      var i := 0;
      while i < max && i < |text| && text[i] != 0 && text[i] != 10
        invariant i <= max && i <= |text| && forall j :: 0 <= j < i ==> text[j] != 0 && text[j] != 10
        invariant fb[..] == Overlay(was.fb, r * COLS + c, text[..i])
      {
        assert text[..i + 1][..i] == text[..i];
        fb[r * COLS + c + i] := if 0x20 <= text[i] <= 0x7E then text[i] else 0x3F;
        i := i + 1;
      }
      LengthIs(text, max, i);
      dirty := true;
    }

    /** `lcd1602rgb_request_flush` */
    method RequestFlush(k: (bool, bool, bool))
      requires fb.Length == ROWS * COLS
      modifies this
      ensures Became(Lcd.RequestFlush(cfg, old(Value()), k))
    {
      delay := None;
      if !dirty {
        return;
      }
      if st != IDLE && st != LCD_READY {
        return;
      }
      row, col, sent := 0, 0, 0;
      st := FLUSH_POS;
      Step(k);
    }
  }

  lemma {:induction false} LengthIs(text: seq<Octet>, max: nat, i: nat)
    requires i <= max && i <= |text| && forall j :: 0 <= j < i ==> text[j] != 0 && text[j] != 10
    requires i == max || i == |text| || text[i] == 0 || text[i] == 10
    ensures DrawLength(text, max) == i
  {
    if i > 0 {
      LengthIs(text[1..], max - 1, i - 1);
    }
  }
}
