// The y-axis rule of createData_Update(Type) for one plot row: the cached
// maximum (plots_YMax), the maximum published by the statistics buffer, and
// the scale the plot is given.

module YAxis {

  /** A plot's y-axis scale: Qwt's automatic scale until a fixed one is set. */
  datatype Scale = AutoScale | Fixed(lo: real, hi: real, step: real)

  /** One row's y-axis bookkeeping: the cached maximum, the buffer's maximum
      for that row (which the rule may cap) and the scale of the plot. */
  datatype YState = YState(cache: real, glue: real, scale: Scale)

  /** The cap on the maximum of difference plots, and the step used with it. */
  const DiffCap: real := 255.0
  const DiffCapStep: real := 83.0

  /** createData_Update(Type). `isDiff` says whether the row is one of the
      difference plots; `step` is the step the floor computation yields for
      the buffer's current maximum. */
  function Update(st: YState, isDiff: bool, step: real): (r: YState)
    ensures r.cache == st.cache || (st.glue > st.cache && r.cache == r.glue)
    ensures r.glue == st.glue || (isDiff && st.glue > DiffCap && r.glue == DiffCap)
    ensures (!isDiff || st.cache <= DiffCap) ==> st.cache <= r.cache
    ensures isDiff && st.cache <= DiffCap ==> r.cache <= DiffCap
    ensures st.cache >= 0.0 ==> r.cache >= 0.0
    ensures st.glue == 0.0 ==> r == st.(scale := Fixed(0.0, 1.0, 1.0))
    ensures st.glue != 0.0 && st.glue <= st.cache ==> r == st
    ensures r.cache != st.cache ==> r.scale == Fixed(0.0, r.cache, if isDiff && st.glue > DiffCap then DiffCapStep else step)
    ensures var capped := isDiff && st.glue > DiffCap;
            st.glue != 0.0 && st.glue > st.cache && (capped || step != 0.0) ==>
              r.cache == r.glue && r.glue == (if capped then DiffCap else st.glue) &&
              r.scale == Fixed(0.0, r.glue, if capped then DiffCapStep else step)
    ensures var capped := isDiff && st.glue > DiffCap;
            !capped && step == 0.0 && st.glue != 0.0 ==> r.cache == st.cache && r.scale == st.scale
  {
    if st.glue != 0.0 then
      if st.glue > st.cache then
        var capped := isDiff && st.glue > DiffCap;
        var glue1 := if capped then DiffCap else st.glue;
        var step1 := if capped then DiffCapStep else step;
        // a zero maximum is forced to a unit scale
        var glue2 := if glue1 == 0.0 then 1.0 else glue1;
        var step2 := if glue1 == 0.0 then 1.0 else step1;
        if step2 != 0.0 then YState(glue2, glue2, Fixed(0.0, glue2, step2))
        else st.(glue := glue2)
      else st
    else st.(scale := Fixed(0.0, 1.0, 1.0))
  }

  /** Running the rule a second time on its own result changes nothing: the
      cache then holds the (capped) maximum, which no longer exceeds it. */
  lemma UpdateIdempotent(st: YState, isDiff: bool, step: real)
    ensures Update(Update(st, isDiff, step), isDiff, step) == Update(st, isDiff, step)
  {
  }

  /** Between two resets the cache never decreases, whatever sequence of
      maxima the buffer publishes, as long as it started within the cap. */
  lemma {:induction false} CacheNeverDecreases(st: YState, isDiff: bool, glues: seq<real>, steps: seq<real>)
    requires |glues| == |steps|
    requires !isDiff || st.cache <= DiffCap
    ensures st.cache <= Replay(st, isDiff, glues, steps).cache
    ensures !isDiff || Replay(st, isDiff, glues, steps).cache <= DiffCap
    decreases |glues|
  {
    if glues != [] {
      var next := Update(st.(glue := glues[0]), isDiff, steps[0]);
      CacheNeverDecreases(next, isDiff, glues[1..], steps[1..]);
    }
  }

  /** The state after the buffer publishes each maximum of `glues` in turn and
      createData_Update(Type) runs after each. */
  function Replay(st: YState, isDiff: bool, glues: seq<real>, steps: seq<real>): (r: YState)
    requires |glues| == |steps|
    ensures glues == [] ==> r == st
    ensures glues != [] ==>
              var last := glues[|glues| - 1];
              r.glue == last || (isDiff && last > DiffCap && r.glue == DiffCap)
    decreases |glues|
  {
    if glues == [] then st
    else Replay(Update(st.(glue := glues[0]), isDiff, steps[0]), isDiff, glues[1..], steps[1..])
  }
}
