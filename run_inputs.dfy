/**
 * The input decisions of the two Tk front ends: which offices and disciplines
 * are ticked, and how the days field becomes the look-back period
 * (gui_test.py `run_script` lines 15-26, test.py `run_script` lines 13-19).
 *
 * A check box list is a sequence of (label, ticked) pairs in the order of the
 * dict built from the configured constants. The days field is the raw text of
 * the entry widget.
 */
module RunInputs {
  import opened FileTree

  /** The text the gui_test.py days field starts with is `str(28)`. */
  const DefaultDays: nat := 28

  /** test.py falls back to 21 days when the field is not a number. */
  const FallbackDays: nat := 21

  const SecondsPerDay: nat := 86400

  /** The labels of the ticked boxes, in box order. */
  function Selected(vars: seq<(string, bool)>): (r: seq<string>)
    ensures |r| <= |vars|
    ensures r == [] <==> forall i | 0 <= i < |vars| :: !vars[i].1
    ensures forall n :: n in r <==> exists i | 0 <= i < |vars| :: vars[i].0 == n && vars[i].1
  {
    if vars == [] then []
    else
      var last := vars[|vars| - 1];
      var front := Selected(vars[..|vars| - 1]);
      assert forall i | 0 <= i < |vars| - 1 :: vars[..|vars| - 1][i] == vars[i];
      if last.1 then front + [last.0] else front
  }

  /** Box order is kept: the selection from boxes `a` then `b` is the
      selection from `a` followed by the selection from `b`. */
  lemma {:induction false} SelectedAppend(a: seq<(string, bool)>, b: seq<(string, bool)>)
    ensures Selected(a + b) == Selected(a) + Selected(b)
    decreases |b|
  {
    if b == [] {
      assert a + b == a;
    } else {
      assert (a + b)[..|a + b| - 1] == a + b[..|b| - 1];
      SelectedAppend(a, b[..|b| - 1]);
    }
  }

  /** Labels of distinct boxes give a selection without repeats. */
  lemma {:induction false} SelectedNoDuplicates(vars: seq<(string, bool)>)
    requires forall i, j | 0 <= i < j < |vars| :: vars[i].0 != vars[j].0
    ensures NoDuplicates(Selected(vars))
  {
    if vars != [] {
      var front := vars[..|vars| - 1];
      SelectedNoDuplicates(front);
      var last := vars[|vars| - 1];
      if last.1 {
        forall i | 0 <= i < |front| ensures front[i].0 != last.0 {
          assert front[i] == vars[i];
        }
        NoDuplicatesAppend(Selected(front), [last.0]);
      }
    }
  }

  function DigitValue(c: char): nat
    requires '0' <= c <= '9'
  {
    c as int - '0' as int
  }

  function DigitChar(n: nat): (c: char)
    requires n < 10
    ensures '0' <= c <= '9' && DigitValue(c) == n
  {
    ('0' as int + n) as char
  }

  function Pow10(k: nat): (p: nat)
    ensures p >= 1
  {
    if k == 0 then 1 else 10 * Pow10(k - 1)
  }

  /** `int(s)` for a string of ASCII digits. */
  function DecimalValue(s: string): (n: nat)
    requires forall i | 0 <= i < |s| :: '0' <= s[i] <= '9'
    ensures n < Pow10(|s|)
  {
    if s == [] then 0
    else DecimalValue(s[..|s| - 1]) * 10 + DigitValue(s[|s| - 1])
  }

  /** `str(n)`: the shortest decimal spelling of `n`. */
  function NatToDecimal(n: nat): (s: string)
    ensures IsDigits(s)
    ensures |s| > 1 ==> s[0] != '0'
  {
    if n < 10 then [DigitChar(n)] else NatToDecimal(n / 10) + [DigitChar(n % 10)]
  }

  /** `int(str(n)) == n`. */
  lemma {:induction false} DecimalRoundTrip(n: nat)
    ensures DecimalValue(NatToDecimal(n)) == n
  {
    if n >= 10 {
      DecimalRoundTrip(n / 10);
      var s := NatToDecimal(n);
      assert s[..|s| - 1] == NatToDecimal(n / 10);
    }
  }

  /** `int` ignores leading zeros: `int("007") == 7`. */
  lemma {:induction false} LeadingZeroIgnored(s: string)
    requires forall i | 0 <= i < |s| :: '0' <= s[i] <= '9'
    ensures DecimalValue("0" + s) == DecimalValue(s)
  {
    if s != [] {
      var t := "0" + s;
      assert t[..|t| - 1] == "0" + s[..|s| - 1];
      LeadingZeroIgnored(s[..|s| - 1]);
    }
  }

  /** The three outcomes of pressing "Start Scan". */
  datatype Decision =
    | SelectionError
    | DaysError
    | Proceed(offices: seq<string>, disciplines: seq<string>, days: nat)

  /** gui_test.py: an empty selection is refused first, then a days field that
      is not all digits; otherwise the scan runs with `int(field)` days. */
  function ValidateRun(officeVars: seq<(string, bool)>, disciplineVars: seq<(string, bool)>, field: string): (r: Decision)
    ensures r.SelectionError? <==> (forall i | 0 <= i < |officeVars| :: !officeVars[i].1) ||
                                   (forall i | 0 <= i < |disciplineVars| :: !disciplineVars[i].1)
    ensures r.DaysError? <==> !r.SelectionError? && !IsDigits(field)
    ensures r.Proceed? ==> r.offices == Selected(officeVars) && r.disciplines == Selected(disciplineVars)
    ensures r.Proceed? ==> IsDigits(field) && r.days == DecimalValue(field)
  {
    var offices := Selected(officeVars);
    var disciplines := Selected(disciplineVars);
    if offices == [] || disciplines == [] then
      SelectionError
    else if IsDigits(field) then
      Proceed(offices, disciplines, DecimalValue(field))
    else
      DaysError
  }

  /** With the field left at its initial text, any non-empty selection runs
      with the default 28 days. */
  lemma DefaultFieldProceeds(officeVars: seq<(string, bool)>, disciplineVars: seq<(string, bool)>)
    requires exists i | 0 <= i < |officeVars| :: officeVars[i].1
    requires exists i | 0 <= i < |disciplineVars| :: disciplineVars[i].1
    ensures ValidateRun(officeVars, disciplineVars, NatToDecimal(DefaultDays)).Proceed?
    ensures ValidateRun(officeVars, disciplineVars, NatToDecimal(DefaultDays)).days == DefaultDays
  {
    DecimalRoundTrip(DefaultDays);
  }

  /** test.py: `int(field)` when the field is all digits, else 21. */
  function DaysOrDefault(field: string): (days: nat)
    ensures IsDigits(field) ==> days == DecimalValue(field)
    ensures !IsDigits(field) ==> days == FallbackDays
  {
    if IsDigits(field) then DecimalValue(field) else FallbackDays
  }

  /** The text `str(n)` in test.py's field gives exactly `n` days. */
  lemma DaysFieldRoundTrip(n: nat)
    ensures DaysOrDefault(NatToDecimal(n)) == n
  {
    DecimalRoundTrip(n);
  }

  /** test.py parses the field before it looks at the selection and never
      refuses a bad field: only an empty selection stops the run. */
  function ValidateTestRun(officeVars: seq<(string, bool)>, disciplineVars: seq<(string, bool)>, field: string): (r: Decision)
    ensures r.Proceed? <==> Selected(officeVars) != [] && Selected(disciplineVars) != []
    ensures !r.DaysError?
    ensures r.Proceed? ==> r.offices == Selected(officeVars) && r.disciplines == Selected(disciplineVars) &&
                           r.days == DaysOrDefault(field)
  {
    var days := DaysOrDefault(field);
    var offices := Selected(officeVars);
    var disciplines := Selected(disciplineVars);
    if offices == [] || disciplines == [] then SelectionError else Proceed(offices, disciplines, days)
  }

  /** The two front ends part ways on a malformed days field: gui_test.py
      refuses it, test.py runs with 21 days. On a numeric field they agree. */
  lemma FrontEndsOnDaysField(officeVars: seq<(string, bool)>, disciplineVars: seq<(string, bool)>, field: string)
    requires Selected(officeVars) != [] && Selected(disciplineVars) != []
    ensures !IsDigits(field) ==> ValidateRun(officeVars, disciplineVars, field) == DaysError &&
                                 ValidateTestRun(officeVars, disciplineVars, field).days == FallbackDays
    ensures IsDigits(field) ==> ValidateRun(officeVars, disciplineVars, field) == ValidateTestRun(officeVars, disciplineVars, field)
  {
  }

  /** `datetime.now() - timedelta(days=days)`, in whole seconds. */
  function Cutoff(now: int, days: nat): (c: int)
    ensures c <= now
    ensures now - c == days * SecondsPerDay
  {
    now - days * SecondsPerDay
  }

  /** The look-back window: a time is at or after the cutoff exactly when it
      lies at most `days` days before `now`. */
  lemma CutoffWindow(now: int, days: nat, mtime: int)
    ensures mtime >= Cutoff(now, days) <==> now - mtime <= days * SecondsPerDay
  {
  }

  /** A longer look-back period never moves the cutoff later. */
  lemma CutoffMonotone(now: int, shorter: nat, longer: nat)
    requires shorter <= longer
    ensures Cutoff(now, longer) <= Cutoff(now, shorter)
  {
    assert shorter * SecondsPerDay <= longer * SecondsPerDay;
  }
}
