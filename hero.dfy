/** The hero banner: the typing effect that writes out a fixed title one
    character per timer tick, the scroll-down indicator that hides once the
    page is scrolled, and the layout of the floating background particles. */
module Hero {

  /** The title the typing effect writes out. */
  const FullText := "Full-Stack Developer"

  /** The indicator shows while the page is scrolled less than this many pixels. */
  const ScrollIndicatorLimit: real := 40.0

  const ParticleCount := 20

  function Min(a: int, b: int): int {
    if a <= b then a else b
  }

  /** The state of the `Hero` component. */
  class HeroSection {
    var typedText: string
    var index: nat
    var showScrollIndicator: bool

    /** The typed text is always the first `index` characters of the title. */
    ghost predicate Valid()
      reads this
    {
      index <= |FullText| && typedText == FullText[..index]
    }

    constructor ()
      ensures Valid() && typedText == "" && index == 0 && showScrollIndicator
    {
      typedText := "";
      index := 0;
      showScrollIndicator := true;
    }

    /** One 100 ms tick of the typing effect. While characters remain, the
        next one is appended and `index` advances; once the title is
        complete no timer is scheduled and nothing changes. */
    method Tick()
      requires Valid()
      modifies this`typedText, this`index
      ensures Valid()
      ensures old(index) < |FullText| ==>
        typedText == old(typedText) + [FullText[old(index)]] && index == old(index) + 1
      ensures old(index) == |FullText| ==> typedText == old(typedText) && index == old(index)
    {
      if index < |FullText| {
        typedText := typedText + [FullText[index]];
        index := index + 1;
      }
    }

    /** The window's scroll listener. */
    method OnScroll(scrollY: real)
      modifies this`showScrollIndicator
      ensures showScrollIndicator <==> scrollY < ScrollIndicatorLimit
    {
      showScrollIndicator := scrollY < ScrollIndicatorLimit;
    }
  }

  /** A freshly mounted banner after `ticks` timer ticks shows the first
      `ticks` characters of the title, and the whole title from the
      twentieth tick on. */
  method TypeOut(ticks: nat) returns (typed: string)
    ensures typed == FullText[..Min(ticks, |FullText|)]
    ensures ticks >= |FullText| ==> typed == FullText
  {
    var hero := new HeroSection();
    var n := 0;
    while n < ticks
      invariant 0 <= n <= ticks
      invariant hero.Valid() && hero.index == Min(n, |FullText|)
    {
      hero.Tick();
      n := n + 1;
    }
    typed := hero.typedText;
  }

  /** A background particle's position, in percent of the banner. */
  datatype Particle = Particle(left: int, top: int)

  /** The `particles` array: particle `i` sits at `(41 i) % 100` percent
      from the left and `(13 i + 20) % 100` percent from the top. */
  function Particles(): (ps: seq<Particle>)
    ensures |ps| == ParticleCount
    ensures forall i | 0 <= i < |ps| :: 0 <= ps[i].left <= 99 && 0 <= ps[i].top <= 99
  {
    seq(ParticleCount, i requires 0 <= i < ParticleCount => Particle((i * 41) % 100, (i * 13 + 20) % 100))
  }

  /** Adding a multiple of 100 does not change a value below 100 modulo 100. */
  lemma ModHundred(k: int, i: int)
    requires 0 <= i < 100
    ensures (100 * k + i) % 100 == i
  {
  }

  /** Multiplying a column by 61 modulo 100 gives back the particle's index,
      since 41 * 61 = 2501 leaves 1 modulo 100. */
  lemma ColumnGivesIndex(i: int)
    requires 0 <= i < 100
    ensures ((i * 41) % 100 * 61) % 100 == i
  {
    var q, r := (i * 41) / 100, (i * 41) % 100;
    assert i * 41 == 100 * q + r;
    assert r * 61 == 100 * (25 * i - 61 * q) + i;
    ModHundred(25 * i - 61 * q, i);
  }

  /** Subtracting 20 from a row and multiplying by 77 modulo 100 gives back
      the particle's index, since 13 * 77 = 1001 leaves 1 modulo 100. */
  lemma RowGivesIndex(i: int)
    requires 0 <= i < 100
    ensures (((i * 13 + 20) % 100 - 20) * 77) % 100 == i
  {
    var q, r := (i * 13 + 20) / 100, (i * 13 + 20) % 100;
    assert i * 13 + 20 == 100 * q + r;
    assert (r - 20) * 77 == 100 * (10 * i - 77 * q) + i;
    ModHundred(10 * i - 77 * q, i);
  }

  /** No two particles share a column or a row. */
  lemma ParticlesSpreadOut()
    ensures forall i, j | 0 <= i < j < |Particles()| ::
      Particles()[i].left != Particles()[j].left && Particles()[i].top != Particles()[j].top
  {
    var ps := Particles();
    forall i, j | 0 <= i < j < |ps| ensures ps[i].left != ps[j].left && ps[i].top != ps[j].top {
      ColumnGivesIndex(i);
      ColumnGivesIndex(j);
      RowGivesIndex(i);
      RowGivesIndex(j);
    }
  }
}
