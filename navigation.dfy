/**
 * The portfolio page (public/main.js): the list of experiments it offers,
 * the index of the one shown, the prev/next buttons that wrap around that
 * list, and gotoExperiment, which swaps the running sketch, the texts and
 * the sound button and remembers the index in localStorage.
 */
module Navigation {
  import opened Options
  import opened JsNumbers

  /** An experiment module, by the exports main.js reads; `disabled` is None when the module does not export it. */
  datatype Experiment = Experiment(name: string, description: string, withSound: bool, disabled: Option<bool>)

  /** `m.disabled !== true` */
  predicate Offered(m: Experiment)
  {
    m.disabled != Some(true)
  }

  /** Object.values(experimentModules).filter(m => m.disabled !== true) */
  function Filter(ms: seq<Experiment>): (r: seq<Experiment>)
    ensures |r| <= |ms|
    ensures forall m :: m in r <==> m in ms && Offered(m)
  {
    if ms == [] then []
    else (if Offered(ms[0]) then [ms[0]] else []) + Filter(ms[1..])
  }

  /**
   * The filter keeps the modules in their original order: filtering a
   * concatenation filters each part and concatenates the results.
   */
  lemma {:induction false} FilterKeepsOrder(a: seq<Experiment>, b: seq<Experiment>)
    ensures Filter(a + b) == Filter(a) + Filter(b)
    decreases |a|
  {
    if a == [] {
      assert a + b == b;
    } else {
      assert (a + b)[0] == a[0] && (a + b)[1..] == a[1..] + b;
      FilterKeepsOrder(a[1..], b);
    }
  }

  /** A list with no disabled module is offered as it is. */
  lemma {:induction false} FilterKeepsAllOffered(ms: seq<Experiment>)
    ensures Filter(ms) == ms <==> forall k :: 0 <= k < |ms| ==> Offered(ms[k])
    decreases |ms|
  {
    if ms != [] {
      FilterKeepsAllOffered(ms[1..]);
      if !Offered(ms[0]) {
        assert |Filter(ms)| <= |ms[1..]| < |ms|;
      } else {
        assert ms == [ms[0]] + ms[1..];
        if Filter(ms) == ms {
          assert Filter(ms[1..]) == ms[1..];
        }
      }
    }
  }

  /** The index the prev button asks for: mod(currentExperiment - 1, experiments.length). */
  function PrevTarget(current: int, n: int): (r: int)
    requires 0 < n
    ensures 0 <= r < n && r == (current - 1) % n
  {
    ModAgrees(current - 1, n);
    Mod(current - 1, n)
  }

  /** The index the next button asks for: mod(currentExperiment + 1, experiments.length). */
  function NextTarget(current: int, n: int): (r: int)
    requires 0 < n
    ensures 0 <= r < n && r == (current + 1) % n
  {
    ModAgrees(current + 1, n);
    Mod(current + 1, n)
  }

  /**
   * The buttons wrap around: prev from the first experiment goes to the
   * last and next from the last goes to the first; otherwise they move by
   * one.
   */
  lemma WrapAround(current: int, n: int)
    requires 0 <= current < n
    ensures PrevTarget(current, n) == if current == 0 then n - 1 else current - 1
    ensures NextTarget(current, n) == if current == n - 1 then 0 else current + 1
  {
    if current == 0 {
      DivModUnique(-1, n, -1, n - 1);
    } else {
      DivModUnique(current - 1, n, 0, current - 1);
    }
    if current == n - 1 {
      DivModUnique(n, n, 1, 0);
    } else {
      DivModUnique(current + 1, n, 0, current + 1);
    }
  }

  /** Prev undoes next, from any index: it comes back to that index reduced into the list. */
  lemma PrevUndoesNext(current: int, n: int)
    requires 0 < n
    ensures PrevTarget(NextTarget(current, n), n) == current % n
  {
    var q, r := current / n, current % n;
    assert current == n * q + r;
    if r == n - 1 {
      assert current + 1 == n * (q + 1) + 0;
      DivModUnique(current + 1, n, q + 1, 0);
      DivModUnique(-1, n, -1, n - 1);
    } else {
      assert current + 1 == n * q + (r + 1);
      DivModUnique(current + 1, n, q, r + 1);
      DivModUnique(r, n, 0, r);
    }
  }

  /** A string of decimal digits, as localStorage holds the index. */
  predicate IsDigits(s: string)
  {
    forall k :: 0 <= k < |s| ==> '0' <= s[k] <= '9'
  }

  /** Number(s) for a string of decimal digits; the empty string counts as 0. */
  function DigitsValue(s: string): nat
    requires IsDigits(s)
  {
    if s == [] then 0 else 10 * DigitsValue(s[..|s| - 1]) + (s[|s| - 1] as int - '0' as int)
  }

  /** String(n): what localStorage.setItem stores for a non-negative index; it reads back as n. */
  function Decimal(n: nat): (s: string)
    ensures IsDigits(s) && DigitsValue(s) == n
  {
    var digit := ('0' as int + n % 10) as char;
    if n < 10 then [digit]
    else
      var s := Decimal(n / 10) + [digit];
      assert s[..|s| - 1] == Decimal(n / 10);
      s
  }

  /** currentExperiment at page load: the stored index read back as a number, or 0. */
  function Loaded(stored: Option<string>): (current: int)
    requires stored.Some? ==> IsDigits(stored.value)
    ensures stored.None? ==> current == 0
    ensures 0 <= current
  {
    if stored.Some? then DigitsValue(stored.value) else 0
  }

  /** The stored index comes back as the same number, so next after a reload is next from where the page was. */
  lemma ReloadThenNext(idx: nat, n: int)
    requires 0 < n
    ensures Loaded(Some(Decimal(idx))) == idx
    ensures NextTarget(Loaded(Some(Decimal(idx))), n) == NextTarget(idx, n)
  {
  }

  /**
   * currentExperiment as main.js keeps it: a number after a button press,
   * but at page load the string localStorage.getItem returned, which the
   * initial gotoExperiment leaves a string.
   */
  datatype Current = Number(value: int) | Text(digits: string)

  /**
   * The index the next button asks for, as written: `currentExperiment + 1`
   * concatenates when currentExperiment is the stored string, and `%`
   * then reads the concatenation back as a number.
   */
  function NextTargetAsWritten(current: Current, n: int): (r: int)
    requires 0 < n && (current.Text? ==> IsDigits(current.digits))
    ensures 0 <= r < n
  {
    match current
    case Number(v) => Mod(v + 1, n)
    case Text(s) =>
      assert IsDigits(s + "1");
      Mod(DigitsValue(s + "1"), n)
  }

  /** As written, the first next after a reload goes to (10 * i + 1) mod n instead of (i + 1) mod n. */
  lemma NextAfterReloadAsWritten(idx: nat, n: int)
    requires 0 < n
    ensures NextTargetAsWritten(Text(Decimal(idx)), n) == (10 * idx + 1) % n
  {
    var s := Decimal(idx) + "1";
    assert s[..|s| - 1] == Decimal(idx);
    ModAgrees(10 * idx + 1, n);
  }

  /** With seven experiments, next from the third after a reload shows the first instead of the fourth. */
  lemma NextAfterReloadSkips()
    ensures NextTargetAsWritten(Text(Decimal(2)), 7) == 0
    ensures NextTarget(2, 7) == 3
  {
    NextAfterReloadAsWritten(2, 7);
  }

  /**
   * The page's state. The sketch instance, the texts and the sound button
   * stand for the p5 instance and DOM elements main.js drives;
   * currentExperiment is kept as a number (see NextTargetAsWritten for the
   * string main.js keeps after a reload).
   */
  class Navigator {
    const experiments: seq<Experiment>
    /** currentExperiment */
    var current: int
    /** localStorage's 'experiment' item */
    var stored: Option<string>
    /** the experiment whose sketch p5Instance runs, if any */
    var running: Option<Experiment>
    /** whether button#sound carries the class 'hidden' */
    var soundHidden: bool
    /** the experiment whose toggleMuted the sound button's click listener calls, if one is attached */
    var soundListener: Option<Experiment>
    var nameText: string
    var descriptionText: string

    /**
     * The index remembered is the one shown (or, if the stored one names no
     * experiment, the one that failed to load), a running sketch is the
     * current experiment's, and the sound button is shown with a listener
     * only for that sketch.
     */
    ghost predicate Valid()
      reads this
    {
      && (stored.Some? ==> IsDigits(stored.value) && DigitsValue(stored.value) == current)
      && (running.Some? ==> 0 <= current < |experiments| && running == Some(experiments[current]))
      && (soundListener.Some? ==> soundListener == running && !soundHidden)
    }

    /** Page load: the filtered list, the stored index (or 0), then gotoExperiment(currentExperiment). */
    constructor (modules: seq<Experiment>, stored: Option<string>, soundHidden: bool, nameText: string, descriptionText: string)
      requires stored.Some? ==> IsDigits(stored.value)
      ensures Valid()
      ensures experiments == Filter(modules)
      ensures current == Loaded(stored)
      ensures 0 <= current < |experiments| ==> running == Some(experiments[current])
      ensures !(0 <= current < |experiments|) ==> running.None? && this.stored == stored
    {
      experiments := Filter(modules);
      current := Loaded(stored);
      this.stored := stored;
      running := None;
      this.soundHidden := soundHidden;
      soundListener := None;
      this.nameText := nameText;
      this.descriptionText := descriptionText;
      new;
      GotoExperiment(current);
    }

    /**
     * gotoExperiment(idx): an index naming no experiment changes nothing;
     * otherwise the old sketch and sound listener are removed, the new
     * sketch runs, the texts show it, and idx becomes the current and the
     * stored index.
     */
    method GotoExperiment(idx: int)
      requires Valid()
      modifies this
      ensures Valid()
      ensures !(0 <= idx < |experiments|) ==> unchanged(this)
      ensures 0 <= idx < |experiments| ==>
        var e := experiments[idx];
        && current == idx && stored == Some(Decimal(idx))
        && running == Some(e) && nameText == e.name && descriptionText == e.description
        && soundHidden == !e.withSound
        && soundListener == (if e.withSound then Some(e) else None)
    {
      if !(0 <= idx < |experiments|) {
        return;
      }
      var experiment := experiments[idx];
      soundListener := None;
      if experiment.withSound {
        soundHidden := false;
        soundListener := Some(experiment);
      } else if !soundHidden {
        soundHidden := true;
      }
      running := Some(experiment);
      nameText, descriptionText := experiment.name, experiment.description;
      current := idx;
      stored := Some(Decimal(idx));
    }

    /** The prev button. With no experiments mod yields NaN, which names none, so nothing changes. */
    method Prev()
      requires Valid()
      modifies this
      ensures Valid()
      ensures |experiments| == 0 ==> unchanged(this)
      ensures 0 < |experiments| ==> current == PrevTarget(old(current), |experiments|) && running == Some(experiments[current])
    {
      if |experiments| == 0 {
        return;
      }
      GotoExperiment(PrevTarget(current, |experiments|));
    }

    /** The next button. */
    method Next()
      requires Valid()
      modifies this
      ensures Valid()
      ensures |experiments| == 0 ==> unchanged(this)
      ensures 0 < |experiments| ==> current == NextTarget(old(current), |experiments|) && running == Some(experiments[current])
    {
      if |experiments| == 0 {
        return;
      }
      GotoExperiment(NextTarget(current, |experiments|));
    }
  }
}
