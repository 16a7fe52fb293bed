/** The BMP280 driver's periodic work: measure, compensate, publish as text. */
module Bmp280 {
  import opened CInt
  import opened Bmp280Trim
  import opened Bmp280Temperature
  import Pressure = Bmp280Pressure
  import Accuracy = Bmp280Accuracy
  import opened SensorText

  /** The three data bytes of one measurement register. */
  datatype Registers = Registers(d1: Byte, d2: Byte, d3: Byte)

  /** The sample a measurement register holds. */
  function Raw(r: Registers): int { Sample20(r.d1, r.d2, r.d3) }

  /** The first byte is the most significant, and of the last one only the upper half counts. */
  lemma RawSample(r: Registers)
    ensures Raw(r) == r.d1 * 0x1000 + r.d2 * 0x10 + r.d3 / 0x10 && 0 <= Raw(r) < 0x10_0000
    ensures Raw(r) / 0x1000 == r.d1 && Raw(r) / 0x10 % 0x100 == r.d2 && Raw(r) % 0x10 == r.d3 / 0x10
  {
    SampleBits(r.d1, r.d2, r.d3);
    DivUnique(r.d1 * 0x1_0000 + r.d2 * 0x100 + r.d3, 16, r.d1 * 0x1000 + r.d2 * 0x10 + r.d3 / 0x10, r.d3 % 0x10);
  }

  /** What a temperature reading promises: in range, the unlimited `fine`, and a result within one and a half
      hundredths of the exact polynomial. */
  predicate TemperatureOf(tr: Trim, raw: int, fine: int, centi: int) {
    InRange(tr, raw) ==> fine == Fine(tr, raw) && -1.5 < centi as real - ExactCenti(tr, raw) < 1.5
  }

  /** What a pressure reading promises: in the calibration box, a result close to the exact formula. */
  predicate PressureOf(tr: Trim, fine: int, raw: int, p: int) {
    Pressure.Box(tr, fine) && 0 <= raw < 0x10_0000 ==> Accuracy.Close(tr, fine, raw, p)
  }

  lemma Compensated(tr: Trim, fine: int, raw: int)
    ensures PressureOf(tr, fine, raw, Pressure.PressureC(tr, fine, raw))
  {
    hide Accuracy.Close, Pressure.PressureC;
    if Pressure.Box(tr, fine) && 0 <= raw < 0x10_0000 {
      Accuracy.PressureAccurate(tr, fine, raw);
    }
  }

  /** The steps of the compensation, named. */
  lemma Stages(tr: Trim, fine: int, raw: int)
    ensures var v := Pressure.OffsetC(fine);
            Pressure.PressureC(tr, fine, raw) ==
            if Pressure.DivisorC(tr, v) == 0 then 0
            else
              var q := Pressure.QuotC(Pressure.DividendC(tr, v, raw), Pressure.DivisorC(tr, v));
              U32(Pressure.RefineC(tr, q)) / 256
  {
  }

  lemma Readable(tr: Trim, raw: int)
    ensures TemperatureOf(tr, raw, FineC(tr, raw), CentiC(FineC(tr, raw)))
  {
    hide InRange, FineC, Fine, CentiC, ExactCenti;
    if InRange(tr, raw) {
      TemperatureFits(tr, raw);
      TemperatureAccurate(tr, raw);
    }
  }

  class Driver {
    var trim: Trim
    var fine: int           // left by read_temperature for read_pressure
    var temp: int           // bmp_info, in hundredths
    var press: int
    var notify: string      // notify.value up to its terminator

    /** Calibration words as read at module init. */
    constructor (words: seq<Word16>)
      requires |words| == 12
      ensures trim == Decode(words) && fine == 0 && temp == 0 && press == 0 && notify == ""
    {
      trim, fine, temp, press, notify := Decode(words), 0, 0, 0, "";
    }

    method ReadTemperature(r: Registers) returns (centi: int)
      modifies this`fine
      ensures fine == FineC(trim, Raw(r)) && centi == CentiC(fine)
      ensures TemperatureOf(trim, Raw(r), fine, centi)
    {
      Readable(trim, Raw(r));
      hide TemperatureOf, S32, S64;
      var raw := (r.d1 * 0x1_0000 + r.d2 * 0x100 + r.d3) / 16;
      var var1 := S32(S32(raw / 8 - S32(trim.t1 * 2)) * trim.t2) / 0x800;
      var x := S32(raw / 16 - trim.t1);
      var var2 := S64(S32(x * x) / 0x1000 * trim.t3) / 0x4000;
      fine := S32(S64(var1 + var2));
      return S32(S32(fine * 5) + 128) / 0x100;
    }

    method ReadPressure(r: Registers) returns (p: int)
      ensures p == Pressure.PressureC(trim, fine, Raw(r))
      ensures PressureOf(trim, fine, Raw(r), p)
    {
      Compensated(trim, fine, Raw(r));
      Stages(trim, fine, Raw(r));
      hide S64, S32, U32, TDiv, PressureOf, Pressure.QuotC, Pressure.PressureC;
      var raw := (r.d1 * 0x1_0000 + r.d2 * 0x100 + r.d3) / 16;
      var var1 := S32(fine - 128_000);
      var var2 := S64(S64(var1 * var1) * trim.p6);
      var2 := S64(var2 + S64(var1 * S64(trim.p5 * 0x2_0000)));
      var2 := S64(var2 + S64(trim.p4 * Pressure.P35));
      assert var2 == Pressure.Var2C(trim, Pressure.OffsetC(fine));
      hide Pressure.Var2C;
      var1 := S64(S64(S64(var1 * var1) * trim.p3) / 0x100 + S64(S64(var1 * trim.p2) * 0x1000));
      var1 := S64(S64(Pressure.P47 + var1) * trim.p1) / Pressure.P33;
      assert var1 == Pressure.DivisorC(trim, Pressure.OffsetC(fine));
      hide Pressure.Var1C, Pressure.DivisorC;
      if var1 == 0 {
        return 0;
      }
      p := 0x10_0000 - raw;
      ghost var dividend := S64(S64(S64(p * Pressure.P31) - var2) * 3125);
      assert dividend == Pressure.DividendC(trim, Pressure.OffsetC(fine), raw);
      hide Pressure.OffsetC, Pressure.DividendC;
      p := Pressure.QuotC(S64(S64(S64(p * Pressure.P31) - var2) * 3125), var1);
      ghost var q := p;
      assert q == Pressure.QuotC(Pressure.DividendC(trim, Pressure.OffsetC(fine), raw),
                                 Pressure.DivisorC(trim, Pressure.OffsetC(fine)));
      var1 := S64(S64(trim.p9 * (p / 0x2000)) * (p / 0x2000)) / Pressure.P25;
      var2 := S64(trim.p8 * p) / 0x8_0000;
      assert var1 == Pressure.SquareC(trim, q) && var2 == Pressure.SlopeC(trim, q);
      p := S64(S64(p + var1 + var2) / 0x100 + S32(trim.p7 * 16));
      assert p == Pressure.RefineC(trim, q);
      return U32(p) / 256;
    }

    /** wq_func: the pressure uses the `fine` of the temperature just read. */
    method Work(t: Registers, p: Registers)
      modifies this`fine, this`temp, this`press, this`notify
      ensures fine == FineC(trim, Raw(t)) && temp == CentiC(fine)
      ensures press == Pressure.PressureC(trim, fine, Raw(p))
      ensures notify == Printed(temp, press)
      ensures TemperatureOf(trim, Raw(t), fine, temp)
      ensures PressureOf(trim, fine, Raw(p), press)
    {
      hide TemperatureOf, PressureOf, FineC, CentiC, Pressure.PressureC;
      temp := ReadTemperature(t);
      press := ReadPressure(p);
      notify := Printed(temp, press);
    }
  }

  /** What a round of work publishes, as a function of the two samples. */
  function Published(tr: Trim, t: int, p: int): string {
    Printed(CentiC(FineC(tr, t)), Pressure.PressureC(tr, FineC(tr, t), p))
  }

  lemma PressureIsNat(tr: Trim, fine: int, p: int)
    ensures 0 <= Pressure.PressureC(tr, fine, p) <= 0xFF_FFFF
  {
    hide Pressure.DivisorC, Pressure.DividendC, Pressure.RefineC, Pressure.QuotC;
  }

  /** End to end: for an in-range temperature sample the published text is never truncated; what scanning it gives, and
      that it recovers the compensated readings exactly when neither has one to nine hundredths (nor any below zero). */
  lemma PublishedScansBack(tr: Trim, t: int, p: int)
    requires InRange(tr, t)
    ensures var temp, press := CentiC(FineC(tr, t)), Pressure.PressureC(tr, FineC(tr, t), p);
            && Published(tr, t, p) == Text(temp, press)
            && Scan(Published(tr, t, p)) == Some(ReadAs(temp, press))
            && (Scan(Published(tr, t, p)) == Some((temp as real / 100.0, press as real / 100.0))
                <==> Clean(temp) && Clean(press))
  {
    hide FineC, CentiC, Fine, Pressure.PressureC, Scan, Text, ReadAs;
    TemperatureFits(tr, t);
    PressureIsNat(tr, FineC(tr, t), p);
    TextFits(CentiC(FineC(tr, t)), Pressure.PressureC(tr, FineC(tr, t), p));
    ScanReads(CentiC(FineC(tr, t)), Pressure.PressureC(tr, FineC(tr, t), p));
    ScanPrinted(CentiC(FineC(tr, t)), Pressure.PressureC(tr, FineC(tr, t), p));
  }
}
