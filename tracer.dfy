// The ray-tracing control logic of the last version: `trace_ray`, the soft shadow
// factor, the reflection and refraction loops, `get_color` and the first render
// pass; and the hard shadow flag and pixel loops of the two earlier versions.
module Tracer {
  import opened Numerics
  import opened Geometry
  import opened Rays
  import opened Surfaces
  import opened Lights
  import opened Images
  import opened Textures
  import opened Nearest
  import opened Shading

  /** `OFFSET`: how far along a secondary ray the search starts. */
  const Offset: real := 0.02
  /** The step by which a retry pushes the start further. */
  const NudgeStep: real := 0.001
  /** A hit closer than this counts as the surface the ray left. */
  const MinDistance: real := 0.001
  /** `DEFAULT_R_D` and `DEFAULT_T_D`. */
  const ReflectDepth: int := 5
  const RefractDepth: nat := 5
  /** How many retries a nudge loop makes before it gives up (the source has no bound). */
  const NudgeLimit: nat := 1000
  /** `PI` of the shading code. */
  const MainPi: real := 3.14159265

  /** The global state the renderer works on. */
  datatype Scene = Scene(surfaces: seq<Surface>, lights: seq<LightSource>, textures: seq<Texture>, eye: Vec3)

  /** Every surface is well formed and no triangle object appears twice: each
      surface is a separate allocation of the parser. */
  predicate SurfacesValid(ss: seq<Surface>)
  {
    (forall j :: 0 <= j < |ss| ==> ValidShape(ss[j]))
    && (forall i, j :: 0 <= i < j < |ss| && ss[i].Tri? && ss[j].Tri? ==> ss[i].tri != ss[j].tri)
  }

  /** Texture indices are -1 or name a loaded, non-empty texture. */
  ghost predicate SceneValid(sc: Scene)
  {
    SurfacesValid(sc.surfaces)
    && (forall j :: 0 <= j < |sc.surfaces| ==> -1 <= TextureOf(sc.surfaces[j]) < |sc.textures|)
    && (forall k :: 0 <= k < |sc.textures| ==>
          sc.textures[k].img.Valid() && 0 < sc.textures[k].img.width && 0 < sc.textures[k].img.height)
  }

  /** The objects tracing may change: the triangles' barycentric caches. */
  function SceneFrame(ss: seq<Surface>): set<object>
  {
    set j | 0 <= j < |ss| && ss[j].Tri? :: ss[j].tri as object
  }

  /** The values the surfaces' `hit` return for a ray, in surface order. */
  function HitTimes(ss: seq<Surface>, ray: Ray, sqrt: real -> real): (ts: seq<Option<real>>)
    requires forall j :: 0 <= j < |ss| ==> ValidShape(ss[j])
    ensures |ts| == |ss|
    ensures forall j :: 0 <= j < |ss| ==> ts[j] == HitOf(ss[j], ray, sqrt).t
  {
    seq(|ss|, j requires 0 <= j < |ss| && ValidShape(ss[j]) => HitOf(ss[j], ray, sqrt).t)
  }

  /** The cache a triangle holds after one `hit` call. */
  function CacheAfter(tri: Triangle, ray: Ray, sqrt: real -> real, before: Barycentric): Barycentric
  {
    match tri.Probe(ray, sqrt).cache
    case Some(w) => w
    case None => before
  }

  /** `ray.org = ray(offset)`. */
  function Shift(ray: Ray, offset: real): Ray
  {
    Ray(At(ray, offset), ray.dir)
  }

  /** `out_alpha` for a chosen surface: its second value when its first lies
      closer than `MinDistance`. */
  function OutAlpha(h: HitReport): (a: Option<real>)
    requires Positive(h.t) && h.tMax.Some?
    ensures a.Some?
    ensures h.t.value < MinDistance ==> a == h.tMax
    ensures MinDistance <= h.t.value ==> a == h.t
  {
    if h.t.value < MinDistance then h.tMax else h.t
  }

  // ---------------------------------------------------------------- trace_ray

  /** `ss[i]->hit(ray, ...)` inside a loop over the surfaces: only surface i's
      cache changes. */
  method HitAt(ss: seq<Surface>, i: int, ray: Ray, sqrt: real -> real) returns (h: HitReport)
    requires SurfacesValid(ss) && 0 <= i < |ss|
    modifies SceneFrame(ss)
    ensures h == HitOf(ss[i], ray, sqrt)
    ensures ss[i].Tri? ==> ss[i].tri.Cache() == CacheAfter(ss[i].tri, ray, sqrt, old(ss[i].tri.Cache()))
    ensures forall j :: 0 <= j < |ss| && j != i && ss[j].Tri? ==> ss[j].tri.Cache() == old(ss[j].tri.Cache())
  {
    assert Footprint(ss[i]) <= SceneFrame(ss);
    h := SurfaceHit(ss[i], ray, sqrt);
  }

  /** `trace_ray(ray, out_alpha, offset)`: the first surface whose first value is
      the smallest positive one, seen from `ray(offset)`; `None` (null, with
      `out_alpha` = +inf) when no value is positive. Every triangle's cache is left
      as its own `hit` call left it, so the chosen triangle's cache holds the
      accepted weights. */
  method TraceRay(ss: seq<Surface>, ray: Ray, offset: real, sqrt: real -> real)
    returns (s: Option<nat>, alpha: Option<real>)
    requires SurfacesValid(ss)
    modifies SceneFrame(ss)
    ensures s == NearestOf(PositiveOnly, HitTimes(ss, Shift(ray, offset), sqrt))
    ensures s.None? <==> alpha.None?
    ensures s.Some? ==> s.value < |ss| && alpha == OutAlpha(HitOf(ss[s.value], Shift(ray, offset), sqrt))
    ensures forall j :: 0 <= j < |ss| && ss[j].Tri? ==>
              ss[j].tri.Cache() == CacheAfter(ss[j].tri, Shift(ray, offset), sqrt, old(ss[j].tri.Cache()))
    ensures s.Some? && ss[s.value].Tri? ==> InTriangle(ss[s.value].tri.Cache())
  {
    var shifted := Shift(ray, offset);
    ghost var ts := HitTimes(ss, shifted, sqrt);
    var out1: Option<real> := None;  // None: INFINITY
    var out2: Option<real> := None;
    s := None;
    for i := 0 to |ss|
      invariant s == NearestUpTo(PositiveOnly, ts, i)
      invariant s.None? <==> out1.None?
      invariant s.Some? ==> out1 == ts[s.value] && out2 == HitOf(ss[s.value], shifted, sqrt).tMax
      invariant forall j :: 0 <= j < i && ss[j].Tri? ==>
                  ss[j].tri.Cache() == CacheAfter(ss[j].tri, shifted, sqrt, old(ss[j].tri.Cache()))
      invariant forall j :: i <= j < |ss| && ss[j].Tri? ==> ss[j].tri.Cache() == old(ss[j].tri.Cache())
    {
      s, out1, out2 := Consider(ss, i, shifted, sqrt, ts, s, out1, out2);
    }
    alpha := if out1.Some? && out1.value < MinDistance then out2 else out1;
    if s.Some? && ss[s.value].Tri? {
      ChosenCacheInTriangle(ss, shifted, sqrt, s.value, ss[s.value].tri.Cache(), old(ss[s.value].tri.Cache()));
    }
  }

  /** The surface `trace_ray` chooses reported a positive value, so if it is a
      triangle its cache holds weights inside it. */
  lemma {:induction false} ChosenCacheInTriangle(ss: seq<Surface>, ray: Ray, sqrt: real -> real, i: nat,
                                                 c: Barycentric, before: Barycentric)
    requires SurfacesValid(ss) && i < |ss| && ss[i].Tri?
    requires NearestOf(PositiveOnly, HitTimes(ss, ray, sqrt)) == Some(i)
    requires c == CacheAfter(ss[i].tri, ray, sqrt, before)
    ensures InTriangle(c)
  {
    assert Accepts(PositiveOnly, HitTimes(ss, ray, sqrt)[i]);
    AcceptedHitCached(ss[i].tri, ray, sqrt, before);
  }

  /** One pass of the loop in `trace_ray`: surface i's `hit`, then the choice. */
  method Consider(ss: seq<Surface>, i: nat, shifted: Ray, sqrt: real -> real, ghost ts: seq<Option<real>>,
                  s: Option<nat>, out1: Option<real>, out2: Option<real>)
    returns (s': Option<nat>, out1': Option<real>, out2': Option<real>)
    requires SurfacesValid(ss) && i < |ss| && ts == HitTimes(ss, shifted, sqrt)
    requires s == NearestUpTo(PositiveOnly, ts, i) && (s.None? <==> out1.None?)
    requires s.Some? ==> out1 == ts[s.value] && out2 == HitOf(ss[s.value], shifted, sqrt).tMax
    modifies SceneFrame(ss)
    ensures s' == NearestUpTo(PositiveOnly, ts, i + 1) && (s'.None? <==> out1'.None?)
    ensures s'.Some? ==> out1' == ts[s'.value] && out2' == HitOf(ss[s'.value], shifted, sqrt).tMax
    ensures ss[i].Tri? ==> ss[i].tri.Cache() == CacheAfter(ss[i].tri, shifted, sqrt, old(ss[i].tri.Cache()))
    ensures forall j :: 0 <= j < |ss| && j != i && ss[j].Tri? ==> ss[j].tri.Cache() == old(ss[j].tri.Cache())
  {
    var h := HitAt(ss, i, shifted, sqrt);
    s', out1', out2' := s, out1, out2;
    if Positive(h.t) && (out1.None? || h.t.value < out1.value) {
      out1', out2', s' := h.t, h.tMax, Some(i);
    }
    NearestNext(ts, i, s, h.t, out1, s');
  }

  /** One step of the choice in `trace_ray`, with the current choice's value in hand. */
  lemma {:induction false} NearestNext(ts: seq<Option<real>>, i: nat, s: Option<nat>, t: Option<real>,
                                       out1: Option<real>, s': Option<nat>)
    requires i < |ts| && ts[i] == t && s == NearestUpTo(PositiveOnly, ts, i)
    requires (s.None? <==> out1.None?) && (s.Some? ==> out1 == ts[s.value])
    requires s' == if Positive(t) && (out1.None? || t.value < out1.value) then Some(i) else s
    ensures s' == NearestUpTo(PositiveOnly, ts, i + 1)
  {
  }

  /** A triangle that reports a positive value has cached weights inside it. */
  lemma {:induction false} AcceptedHitCached(tri: Triangle, ray: Ray, sqrt: real -> real, before: Barycentric)
    requires Positive(tri.Probe(ray, sqrt).hit.t)
    ensures InTriangle(CacheAfter(tri, ray, sqrt, before))
  {
  }

  // ---------------------------------------------------------------- shadows

  /** Surface j casts a shadow on the shaded surface `self`: it is another surface,
      the shadow ray hits it at a positive value, and for a light that is not a
      direction the hit lies no farther from the shaded point than the light. */
  predicate Occludes(ss: seq<Surface>, light: LightSource, shadowRay: Ray, self: int, intersect: Vec3,
                     j: int, sqrt: real -> real)
    requires 0 <= j < |ss| && ValidShape(ss[j])
  {
    var h := HitOf(ss[j], shadowRay, sqrt);
    j != self && Positive(h.t)
    && (light.w != 0.0 ==>
          Norm(Sub(At(shadowRay, h.t.value), intersect), sqrt) <= Norm(Sub(light.p, intersect), sqrt))
  }

  /** The opacities the soft-shadow loop adds up over the first n surfaces. */
  function OccluderAlphas(ss: seq<Surface>, light: LightSource, shadowRay: Ray, self: int, intersect: Vec3,
                          n: nat, sqrt: real -> real): (alphas: seq<real>)
    requires n <= |ss| && forall j :: 0 <= j < |ss| ==> ValidShape(ss[j])
    ensures |alphas| <= n
  {
    if n == 0 then []
    else
      OccluderAlphas(ss, light, shadowRay, self, intersect, n - 1, sqrt)
      + (if Occludes(ss, light, shadowRay, self, intersect, n - 1, sqrt) then [MaterialOf(ss[n - 1]).alpha] else [])
  }

  /** A shadow ray that meets no occluder contributes nothing, and one that meets
      an occluder contributes something. */
  lemma {:induction false} NoOccluderNoAlphas(ss: seq<Surface>, light: LightSource, shadowRay: Ray,
                                              self: int, intersect: Vec3, n: nat, sqrt: real -> real)
    requires n <= |ss| && forall j :: 0 <= j < |ss| ==> ValidShape(ss[j])
    ensures |OccluderAlphas(ss, light, shadowRay, self, intersect, n, sqrt)| == 0 <==>
              forall j :: 0 <= j < n ==> !Occludes(ss, light, shadowRay, self, intersect, j, sqrt)
  {
    if forall j :: 0 <= j < n ==> !Occludes(ss, light, shadowRay, self, intersect, j, sqrt) {
      NothingOccludes(ss, light, shadowRay, self, intersect, n, sqrt);
    } else {
      var j :| 0 <= j < n && Occludes(ss, light, shadowRay, self, intersect, j, sqrt);
      OccluderCounted(ss, light, shadowRay, self, intersect, n, j, sqrt);
    }
  }

  lemma {:induction false} NothingOccludes(ss: seq<Surface>, light: LightSource, shadowRay: Ray,
                                           self: int, intersect: Vec3, n: nat, sqrt: real -> real)
    requires n <= |ss| && forall j :: 0 <= j < |ss| ==> ValidShape(ss[j])
    requires forall j :: 0 <= j < n ==> !Occludes(ss, light, shadowRay, self, intersect, j, sqrt)
    ensures OccluderAlphas(ss, light, shadowRay, self, intersect, n, sqrt) == []
  {
    if n > 0 {
      NothingOccludes(ss, light, shadowRay, self, intersect, n - 1, sqrt);
    }
  }

  lemma {:induction false} OccluderCounted(ss: seq<Surface>, light: LightSource, shadowRay: Ray,
                                           self: int, intersect: Vec3, n: nat, j: nat, sqrt: real -> real)
    requires j < n <= |ss| && forall k :: 0 <= k < |ss| ==> ValidShape(ss[k])
    requires Occludes(ss, light, shadowRay, self, intersect, j, sqrt)
    ensures OccluderAlphas(ss, light, shadowRay, self, intersect, n, sqrt) != []
  {
    if j < n - 1 {
      OccluderCounted(ss, light, shadowRay, self, intersect, n - 1, j, sqrt);
    }
  }

  /** a is the opacity of one of the first n surfaces that occludes. */
  predicate OpacityOfOccluder(ss: seq<Surface>, light: LightSource, shadowRay: Ray, self: int, intersect: Vec3,
                              n: nat, sqrt: real -> real, a: real)
    requires n <= |ss| && forall j :: 0 <= j < |ss| ==> ValidShape(ss[j])
  {
    exists j :: 0 <= j < n && Occludes(ss, light, shadowRay, self, intersect, j, sqrt) && a == MaterialOf(ss[j]).alpha
  }

  /** Only occluders contribute, each with its own opacity. */
  lemma {:induction false} OccluderAlphasFromOccluders(ss: seq<Surface>, light: LightSource, shadowRay: Ray,
                                                       self: int, intersect: Vec3, n: nat, sqrt: real -> real)
    requires n <= |ss| && forall j :: 0 <= j < |ss| ==> ValidShape(ss[j])
    ensures forall k :: 0 <= k < |OccluderAlphas(ss, light, shadowRay, self, intersect, n, sqrt)| ==>
              OpacityOfOccluder(ss, light, shadowRay, self, intersect, n, sqrt,
                                OccluderAlphas(ss, light, shadowRay, self, intersect, n, sqrt)[k])
  {
    if n > 0 {
      OccluderAlphasFromOccluders(ss, light, shadowRay, self, intersect, n - 1, sqrt);
      var prev := OccluderAlphas(ss, light, shadowRay, self, intersect, n - 1, sqrt);
      var cur := OccluderAlphas(ss, light, shadowRay, self, intersect, n, sqrt);
      forall k | 0 <= k < |cur|
        ensures OpacityOfOccluder(ss, light, shadowRay, self, intersect, n, sqrt, cur[k])
      {
        if k < |prev| {
          assert cur[k] == prev[k];
          assert OpacityOfOccluder(ss, light, shadowRay, self, intersect, n - 1, sqrt, prev[k]);
        } else {
          assert Occludes(ss, light, shadowRay, self, intersect, n - 1, sqrt) && cur[k] == MaterialOf(ss[n - 1]).alpha;
        }
      }
    }
  }

  /** `get_shadow_flag` of the last version: 1 minus the average opacity of the
      occluders, 1 when there is none. The shaded surface is never tested, so its
      cache is untouched; every other triangle's cache is what its `hit` left. */
  method ShadowFactor(ss: seq<Surface>, light: LightSource, shadowRay: Ray, self: int, intersect: Vec3,
                      sqrt: real -> real) returns (shadow: real)
    requires SurfacesValid(ss)
    modifies SceneFrame(ss)
    ensures shadow == SoftShadow(OccluderAlphas(ss, light, shadowRay, self, intersect, |ss|, sqrt))
    ensures 0 <= self < |ss| && ss[self].Tri? ==> ss[self].tri.Cache() == old(ss[self].tri.Cache())
    ensures forall j :: 0 <= j < |ss| && j != self && ss[j].Tri? ==>
              ss[j].tri.Cache() == CacheAfter(ss[j].tri, shadowRay, sqrt, old(ss[j].tri.Cache()))
  {
    shadow := 1.0;
    var diff := 0.0;
    var count := 0;
    for i := 0 to |ss|
      invariant diff == Sum(OccluderAlphas(ss, light, shadowRay, self, intersect, i, sqrt))
      invariant count == |OccluderAlphas(ss, light, shadowRay, self, intersect, i, sqrt)|
      invariant forall j :: 0 <= j < i && j != self && ss[j].Tri? ==>
                  ss[j].tri.Cache() == CacheAfter(ss[j].tri, shadowRay, sqrt, old(ss[j].tri.Cache()))
      invariant forall j :: (i <= j < |ss| || j == self) && 0 <= j < |ss| && ss[j].Tri? ==>
                  ss[j].tri.Cache() == old(ss[j].tri.Cache())
    {
      ghost var diff0, count0 := diff, count;
      var isValid := false;
      if i != self {
        isValid := Blocks(ss, light, shadowRay, self, intersect, i, sqrt);
      }
      if isValid {
        diff := diff + MaterialOf(ss[i]).alpha;
        count := count + 1;
      }
      OccluderAlphasNext(ss, light, shadowRay, self, intersect, i, sqrt, isValid, diff0, count0, diff, count);
    }
    if count > 0 {
      shadow := shadow - diff / count as real;
    }
  }

  /** One step of the soft-shadow loop's running sum and count. */
  lemma {:induction false} OccluderAlphasNext(ss: seq<Surface>, light: LightSource, shadowRay: Ray, self: int,
                                              intersect: Vec3, i: nat, sqrt: real -> real, occludes: bool,
                                              diff0: real, count0: int, diff: real, count: int)
    requires i < |ss| && forall j :: 0 <= j < |ss| ==> ValidShape(ss[j])
    requires occludes == Occludes(ss, light, shadowRay, self, intersect, i, sqrt)
    requires diff0 == Sum(OccluderAlphas(ss, light, shadowRay, self, intersect, i, sqrt))
    requires count0 == |OccluderAlphas(ss, light, shadowRay, self, intersect, i, sqrt)|
    requires diff == if occludes then diff0 + MaterialOf(ss[i]).alpha else diff0
    requires count == if occludes then count0 + 1 else count0
    ensures diff == Sum(OccluderAlphas(ss, light, shadowRay, self, intersect, i + 1, sqrt))
    ensures count == |OccluderAlphas(ss, light, shadowRay, self, intersect, i + 1, sqrt)|
  {
    var before := OccluderAlphas(ss, light, shadowRay, self, intersect, i, sqrt);
    if occludes {
      SumOfSnoc(before, MaterialOf(ss[i]).alpha);
    } else {
      assert before + [] == before;
    }
  }

  /** One step of both shadow loops: the hit test of surface i, and for a light
      that is not a direction the distance test. */
  method Blocks(ss: seq<Surface>, light: LightSource, shadowRay: Ray, self: int, intersect: Vec3, i: int,
                sqrt: real -> real) returns (isValid: bool)
    requires SurfacesValid(ss) && 0 <= i < |ss| && i != self
    modifies SceneFrame(ss)
    ensures isValid == Occludes(ss, light, shadowRay, self, intersect, i, sqrt)
    ensures ss[i].Tri? ==> ss[i].tri.Cache() == CacheAfter(ss[i].tri, shadowRay, sqrt, old(ss[i].tri.Cache()))
    ensures forall j :: 0 <= j < |ss| && j != i && ss[j].Tri? ==> ss[j].tri.Cache() == old(ss[j].tri.Cache())
  {
    var alpha := HitAt(ss, i, shadowRay, sqrt);
    isValid := false;
    if Positive(alpha.t) {
      isValid := true;
      if light.w != 0.0 {
        var shadowIntersect := At(shadowRay, alpha.t.value);
        isValid := Norm(Sub(shadowIntersect, intersect), sqrt) <= Norm(Sub(light.p, intersect), sqrt);
      }
    }
  }

  /** With every material's opacity in [0, 1] the soft shadow factor lies in [0, 1]. */
  lemma {:induction false} ShadowFactorInUnit(ss: seq<Surface>, light: LightSource, shadowRay: Ray, self: int,
                                              intersect: Vec3, sqrt: real -> real)
    requires forall j :: 0 <= j < |ss| ==> ValidShape(ss[j]) && InUnit(MaterialOf(ss[j]).alpha)
    ensures InUnit(SoftShadow(OccluderAlphas(ss, light, shadowRay, self, intersect, |ss|, sqrt)))
  {
    var alphas := OccluderAlphas(ss, light, shadowRay, self, intersect, |ss|, sqrt);
    OccluderAlphasFromOccluders(ss, light, shadowRay, self, intersect, |ss|, sqrt);
    forall k | 0 <= k < |alphas|
      ensures InUnit(alphas[k])
    {
      assert OpacityOfOccluder(ss, light, shadowRay, self, intersect, |ss|, sqrt, alphas[k]);
    }
    SoftShadowInUnit(alphas);
  }

  /** `get_shadow_flag` of the second version: 0 at the first occluder, 1 when
      there is none. That version has no triangles, and its `hit` reports only the
      smaller root. */
  method HardShadowFlag(ss: seq<Surface>, light: LightSource, shadowRay: Ray, self: int, intersect: Vec3,
                        sqrt: real -> real) returns (shadow: real)
    requires forall j :: 0 <= j < |ss| ==> ValidShape(ss[j]) && !ss[j].Tri?
    ensures shadow == HardShadow(exists j :: 0 <= j < |ss| && Occludes(ss, light, shadowRay, self, intersect, j, sqrt))
  {
    shadow := 1.0;
    for i := 0 to |ss|
      invariant forall j :: 0 <= j < i ==> !Occludes(ss, light, shadowRay, self, intersect, j, sqrt)
    {
      if i != self {
        var alpha := HitOfMin(ss[i], shadowRay, sqrt);
        if alpha.Some? && alpha.value > 0.0 {
          var isValid := true;
          if light.w != 0.0 {
            var shadowIntersect := At(shadowRay, alpha.value);
            isValid := Norm(Sub(shadowIntersect, intersect), sqrt) <= Norm(Sub(light.p, intersect), sqrt);
          }
          if isValid {
            assert Occludes(ss, light, shadowRay, self, intersect, i, sqrt);
            shadow := 0.0;
            return;
          }
        }
      }
    }
  }

  /** When every surface is opaque the soft factor of the last version equals the
      hard flag of the second one. */
  lemma {:induction false} OpaqueShadowsAgree(ss: seq<Surface>, light: LightSource, shadowRay: Ray, self: int,
                                              intersect: Vec3, sqrt: real -> real)
    requires forall j :: 0 <= j < |ss| ==> ValidShape(ss[j]) && MaterialOf(ss[j]).alpha == 1.0
    ensures SoftShadow(OccluderAlphas(ss, light, shadowRay, self, intersect, |ss|, sqrt))
            == HardShadow(exists j :: 0 <= j < |ss| && Occludes(ss, light, shadowRay, self, intersect, j, sqrt))
  {
    var alphas := OccluderAlphas(ss, light, shadowRay, self, intersect, |ss|, sqrt);
    OccluderAlphasFromOccluders(ss, light, shadowRay, self, intersect, |ss|, sqrt);
    NoOccluderNoAlphas(ss, light, shadowRay, self, intersect, |ss|, sqrt);
    forall k | 0 <= k < |alphas|
      ensures alphas[k] == 1.0
    {
      assert OpacityOfOccluder(ss, light, shadowRay, self, intersect, |ss|, sqrt, alphas[k]);
    }
    OpaqueSoftShadowIsHard(alphas);
  }

  // ---------------------------------------------------------------- secondary rays

  /** The retry loop around `trace_ray`: a first trace of `first` from `Offset`,
      then, while the hit lies closer than `MinDistance`, traces of `retry` from an
      offset pushed by `NudgeStep` each time, at most `NudgeLimit` times. The
      refraction loop's exit leg retries the entry ray, as the source does. */
  method NudgedTrace(ss: seq<Surface>, first: Ray, retry: Ray, sqrt: real -> real)
    returns (s: Option<nat>, t: Option<real>, offset: real)
    requires SurfacesValid(ss)
    modifies SceneFrame(ss)
    ensures Offset <= offset
    ensures s == NearestOf(PositiveOnly, HitTimes(ss, Shift(if offset == Offset then first else retry, offset), sqrt))
    ensures s.None? <==> t.None?
    ensures s.Some? ==> s.value < |ss|
                        && t == OutAlpha(HitOf(ss[s.value], Shift(if offset == Offset then first else retry, offset), sqrt))
    ensures t.None? || MinDistance <= t.value || offset == Offset + NudgeLimit as real * NudgeStep
    ensures NearestOf(PositiveOnly, HitTimes(ss, Shift(first, Offset), sqrt)).None? ==> s.None? && offset == Offset
  {
    offset := Offset;
    s, t := TraceRay(ss, first, offset, sqrt);
    var tries: nat := 0;
    ghost var traced := first;
    while tries < NudgeLimit && t.Some? && t.value < MinDistance && s.Some?
      invariant tries <= NudgeLimit && offset == Offset + tries as real * NudgeStep
      invariant traced == if tries == 0 then first else retry
      invariant s == NearestOf(PositiveOnly, HitTimes(ss, Shift(traced, offset), sqrt))
      invariant s.None? <==> t.None?
      invariant s.Some? ==> s.value < |ss| && t == OutAlpha(HitOf(ss[s.value], Shift(traced, offset), sqrt))
      invariant NearestOf(PositiveOnly, HitTimes(ss, Shift(first, Offset), sqrt)).None? ==> tries == 0
    {
      offset := offset + NudgeStep;
      s, t := TraceRay(ss, retry, offset, sqrt);
      tries := tries + 1;
      traced := retry;
    }
    assert traced == if offset == Offset then first else retry;
  }

  /** Why a reflection or refraction loop stopped: the depth was used up, the
      index of refraction was negative, or a trace met nothing. */
  datatype Stop = DepthUsed | NegativeIndex | Missed

  /** The ray of one bounce: from `at` along 2 cos N - I, with N first turned to
      face I. */
  function ReflectedRay(at: Vec3, inc: Vec3, nrm: Vec3, sqrt: real -> real): Ray
  {
    var f := FacingNormal(inc, nrm);
    MakeRay(at, Sub(Scale(2.0 * Dot(inc, f), f), inc), true, sqrt)
  }

  /** `reflect_ray(intersect, I, N, eta, depth)`: at most `depth` bounces, stopping
      early when the index is negative or the reflected ray meets nothing; each
      bounce adds the Schlick reflectance times the colour seen, and the sum is
      clamped. */
  method ReflectRay(sc: Scene, intersect: Vec3, i: Vec3, n: Vec3, eta: real, depth: int, fuel: nat, m: Math)
    returns (c: Color, ghost bounces: nat, ghost stop: Stop)
    requires SceneValid(sc) && 0 < fuel
    modifies SceneFrame(sc.surfaces)
    decreases fuel, 0
    ensures AtMostOne(c)
    ensures bounces <= (if depth < 0 then 0 else depth)
    ensures stop == DepthUsed <==> bounces == (if depth < 0 then 0 else depth)
    ensures stop == NegativeIndex && bounces == 0 <==> 0 < depth && eta < 0.0
    ensures depth <= 0 || eta < 0.0 ==> c == Black
    ensures 0 < depth && 0.0 <= eta
            && NearestOf(PositiveOnly, HitTimes(sc.surfaces, Shift(ReflectedRay(intersect, i, n, m.sqrt), Offset), m.sqrt)).None?
            ==> c == Black && bounces == 0 && stop == Missed
  {
    var ret := Black;
    var at, inc, nrm, index, d := intersect, i, n, eta, depth;
    bounces := 0;
    ghost var missed := false;
    ghost var firstMiss := 0.0 <= eta
      && NearestOf(PositiveOnly, HitTimes(sc.surfaces, Shift(ReflectedRay(intersect, i, n, m.sqrt), Offset), m.sqrt)).None?;
    while d > 0 && index >= 0.0
      invariant bounces + (if d < 0 then 0 else d) == (if depth < 0 then 0 else depth)
      invariant bounces == 0 ==> ret == Black && index == eta && at == intersect && inc == i && nrm == n
      invariant eta < 0.0 ==> bounces == 0
      invariant firstMiss ==> bounces == 0
      invariant !missed
      decreases d
    {
      d := d - 1;
      var r := ReflectedRay(at, inc, nrm, m.sqrt);
      nrm := FacingNormal(inc, nrm);
      var cosVal := Dot(inc, nrm);
      var fr := Schlick(index, cosVal);
      var s, t, _ := NudgedTrace(sc.surfaces, r, r, m.sqrt);
      if s.None? {
        missed := true;
        break;
      }
      var color := GetColor(sc, r, t.value, s.value, false, true, fuel - 1, m);
      ret := CAdd(ret, CScale(fr, color));
      inc := Normalized(Sub(at, At(r, t.value)), m.sqrt);
      at := At(r, t.value);
      nrm := NormalAt(sc.surfaces[s.value], at, m.sqrt);
      index := MaterialOf(sc.surfaces[s.value]).eta;
      bounces := bounces + 1;
    }
    stop := if missed then Missed else if d > 0 then NegativeIndex else DepthUsed;
    c := Clamp(ret);
  }

  /** `1.0 / x`; the source divides by a zero index and gets infinity, the model
      takes 0. */
  function Recip(x: real): real
  {
    if x == 0.0 then 0.0 else 1.0 / x
  }

  /** The transmitted direction of Snell's law as the source writes it:
      `-N sqrt(1 - r_eta^2 (1 - cos^2)) + r_eta (cos N - I)`. */
  function Transmitted(i: Vec3, n: Vec3, cosVal: real, rEta: real, sqrt: real -> real): Vec3
  {
    Add(ScaleRight(Scale(-1.0, n), sqrt(1.0 - rEta * rEta * (1.0 - cosVal * cosVal))),
        Scale(rEta, Sub(Scale(cosVal, n), i)))
  }

  /** The ray into a surface: from `at` along the transmitted direction for the
      index ratio 1 / eta, with N first turned to face I. */
  function EntryRay(at: Vec3, inc: Vec3, nrm: Vec3, index: real, sqrt: real -> real): Ray
  {
    var f := FacingNormal(inc, nrm);
    MakeRay(at, Normalized(Transmitted(inc, f, Dot(inc, f), Recip(index), sqrt), sqrt), true, sqrt)
  }

  /** `refract_ray(intersect, I, N, alpha, eta, depth)`: at most `depth` passes
      through transparent surfaces while the index is non-negative, stopping as
      soon as the entry or the exit trace meets nothing; each pass adds
      (1 - Fr) times the Beer's-law attenuation times the colour seen. */
  method RefractRay(sc: Scene, intersect: Vec3, i: Vec3, n: Vec3, alpha: real, eta: real, depth: nat,
                    fuel: nat, m: Math) returns (c: Color, ghost passes: nat, ghost stop: Stop)
    requires SceneValid(sc) && 0 < fuel
    modifies SceneFrame(sc.surfaces)
    decreases fuel, 0
    ensures passes <= depth
    ensures stop == DepthUsed <==> passes == depth
    ensures stop == NegativeIndex && passes == 0 <==> 0 < depth && eta < 0.0
    ensures depth == 0 || eta < 0.0 ==> c == Black
    ensures 0 < depth && 0.0 <= eta
            && NearestOf(PositiveOnly, HitTimes(sc.surfaces, Shift(EntryRay(intersect, i, n, eta, m.sqrt), Offset), m.sqrt)).None?
            ==> c == Black && passes == 0 && stop == Missed
  {
    c := Black;
    var at, inc, nrm, absorb, index := intersect, i, n, alpha, eta;
    passes := 0;
    ghost var missed := false;
    ghost var firstMiss := 0.0 <= eta
      && NearestOf(PositiveOnly, HitTimes(sc.surfaces, Shift(EntryRay(intersect, i, n, eta, m.sqrt), Offset), m.sqrt)).None?;
    var k := 0;
    while k != depth && index >= 0.0
      invariant passes == k <= depth
      invariant k == 0 ==> c == Black && index == eta && at == intersect && inc == i && nrm == n
      invariant eta < 0.0 ==> k == 0
      invariant firstMiss ==> k == 0
      invariant !missed
      decreases depth - k
    {
      // into the surface
      var t1Ray := EntryRay(at, inc, nrm, index, m.sqrt);
      nrm := FacingNormal(inc, nrm);
      var cosVal := Dot(inc, nrm);
      var fr := Schlick(index, cosVal);
      var rEta := Recip(index);
      var s, t1, _ := NudgedTrace(sc.surfaces, t1Ray, t1Ray, m.sqrt);
      if s.None? {
        missed := true;
        break;
      }
      inc := Normalized(Sub(at, At(t1Ray, t1.value)), m.sqrt);
      at := At(t1Ray, t1.value);
      nrm := FacingNormal(inc, NormalAt(sc.surfaces[s.value], at, m.sqrt));
      cosVal := Dot(inc, nrm);
      // out of it again; the retries trace the entry ray
      rEta := Recip(rEta);
      var t2Ray := MakeRay(at, Normalized(Transmitted(inc, nrm, cosVal, rEta, m.sqrt), m.sqrt), true, m.sqrt);
      var s2, t2, _ := NudgedTrace(sc.surfaces, t2Ray, t1Ray, m.sqrt);
      if s2.None? {
        missed := true;
        break;
      }
      var beersLaw := m.exp(-1.0 * absorb * Abs(t2.value - t1.value));
      var color := GetColor(sc, t2Ray, t2.value, s2.value, true, false, fuel - 1, m);
      c := CAdd(c, CScale((1.0 - fr) * beersLaw, color));
      inc := Normalized(Sub(at, At(t2Ray, t2.value)), m.sqrt);
      at := At(t2Ray, t2.value);
      nrm := NormalAt(sc.surfaces[s2.value], at, m.sqrt);
      index := MaterialOf(sc.surfaces[s2.value]).eta;
      absorb := MaterialOf(sc.surfaces[s2.value]).alpha;
      k := k + 1;
      passes := passes + 1;
    }
    stop := if missed then Missed else if k != depth then NegativeIndex else DepthUsed;
  }

  // ---------------------------------------------------------------- get_color

  /** The diffuse colour at a point: the material's, or the texture sampled at the
      surface's texture coordinates. */
  method DiffuseColor(sc: Scene, s: nat, p: Vec3, m: Math) returns (od: Color)
    requires SceneValid(sc) && s < |sc.surfaces|
    ensures TextureOf(sc.surfaces[s]) == -1 ==> od == MaterialOf(sc.surfaces[s]).od
    ensures TextureOf(sc.surfaces[s]) != -1 ==>
              var uv := TexCoordAt(sc.surfaces[s], p, m);
              uv.Some? && od == sc.textures[TextureOf(sc.surfaces[s])].Sample(uv.value.0, uv.value.1)
  {
    var surface := sc.surfaces[s];
    if TextureOf(surface) == -1 {
      od := MaterialOf(surface).od;
    } else {
      var texture := sc.textures[TextureOf(surface)];
      var uv := TexCoordAt(surface, p, m);
      od := texture.Sample(uv.value.0, uv.value.1);
    }
  }

  /** `get_color(r, t, surface, reflect, refract)`: the ambient term, then per light
      the shadowed diffuse and specular terms and, inside the same loop, the
      reflected and refracted colours; the sum is clamped from above. Reflection
      and refraction nest without bound in the source; here they stop when `fuel`
      runs out. */
  method GetColor(sc: Scene, r: Ray, t: real, s: nat, reflect: bool, refract: bool, fuel: nat, m: Math)
    returns (c: Color)
    requires SceneValid(sc) && s < |sc.surfaces|
    modifies SceneFrame(sc.surfaces)
    decreases fuel, 1
    ensures AtMostOne(c)
    ensures |sc.lights| == 0 && TextureOf(sc.surfaces[s]) == -1 ==>
              c == Clamp(CScale(MaterialOf(sc.surfaces[s]).ka, MaterialOf(sc.surfaces[s]).od))
  {
    var surface := sc.surfaces[s];
    var mtl := MaterialOf(surface);
    var intersect := At(r, t);
    var od := DiffuseColor(sc, s, intersect, m);
    var ret := CScale(mtl.ka, od);
    for k := 0 to |sc.lights|
      invariant |sc.lights| == 0 ==> ret == CScale(mtl.ka, od)
    {
      var source := sc.lights[k];
      var n := NormalAt(surface, intersect, m.sqrt);
      var l := LightDir(source, intersect, m.sqrt);
      var v := Normalized(Sub(sc.eye, intersect), m.sqrt);
      var h := Normalized(Add(l, v), m.sqrt);
      var intensity := if |sc.lights| == 1 then White else source.c;
      var d1, d2 := Dot(n, l), Dot(n, h);
      var diffuse := CScaleRight(CScale(mtl.kd, od), if d1 < 0.0 then 0.0 else d1);
      var specular := CScaleRight(CScale(mtl.ks, mtl.os), m.pow(if d2 < 0.0 then 0.0 else d2, mtl.n));
      var shadow := ShadowFactor(sc.surfaces, source, MakeRay(intersect, l, true, m.sqrt), s, intersect, m.sqrt);
      if OutsideCone(source, l, m) {
        intensity := Black;
      }
      var color := CMul(CScale(shadow, intensity), CAdd(diffuse, specular));
      ret := CAdd(ret, color);
      intersect := At(r, t);
      var i := Normalized(Sub(sc.eye, intersect), m.sqrt);
      if surface.Tri? {
        n := Normalized(surface.tri.PlaneNormal(), m.sqrt);
      }
      if reflect && 0 < fuel {
        var reflected, _, _ := ReflectRay(sc, intersect, i, n, mtl.eta, ReflectDepth, fuel, m);
        ret := CAdd(ret, reflected);
      }
      if refract && 0 < fuel {
        var refracted, _, _ := RefractRay(sc, intersect, i, n, mtl.alpha, mtl.eta, RefractDepth, fuel, m);
        ret := CAdd(ret, refracted);
      }
    }
    c := Clamp(ret);
  }

  // ---------------------------------------------------------------- the pixel loops

  /** The rays of a `width` x `height` window, one per pixel, row after row. */
  predicate IsGrid(rays: seq<PixelRay>, width: int, height: int)
  {
    0 < width && |rays| == width * height
    && forall k :: 0 <= k < |rays| ==> rays[k].r == k / width && rays[k].c == k % width
  }

  /** What a render pass promises for one pixel: without a positive hit the pixel
      keeps its colour, with one it gets a colour clamped from above. */
  predicate Shaded(ts: seq<Option<real>>, before: Color, after: Color)
  {
    if NearestOf(PositiveOnly, ts).None? then after == before else AtMostOne(after)
  }

  /** Without lights, a pixel whose nearest surface has no texture gets that
      surface's clamped ambient colour ka od. */
  predicate AmbientShaded(sc: Scene, ray: Ray, after: Color, m: Math)
    requires SurfacesValid(sc.surfaces)
  {
    var i := NearestOf(PositiveOnly, HitTimes(sc.surfaces, ray, m.sqrt));
    i.Some? && |sc.lights| == 0 && TextureOf(sc.surfaces[i.value]) == -1 ==>
      after == Clamp(CScale(MaterialOf(sc.surfaces[i.value]).ka, MaterialOf(sc.surfaces[i.value]).od))
  }

  /** One pixel of the first render pass of the last version. */
  method RenderPixel(sc: Scene, img: Image, ray: PixelRay, k: nat, fuel: nat, m: Math)
    requires SceneValid(sc) && img.Valid() && k < img.pixels.Length
    requires 0 < img.width && ray.r == k / img.width && ray.c == k % img.width
    modifies img.pixels, SceneFrame(sc.surfaces)
    ensures img.pixels[..] == old(img.pixels[..])[k := img.pixels[k]]
    ensures Shaded(HitTimes(sc.surfaces, ray.ray, m.sqrt), old(img.pixels[k]), img.pixels[k])
    ensures AmbientShaded(sc, ray.ray, img.pixels[k], m)
  {
    AtZero(ray.ray);
    var s, alpha := TraceRay(sc.surfaces, ray.ray, 0.0, m.sqrt);
    if s.Some? {
      var color := GetColor(sc, ray.ray, alpha.value, s.value, true, true, fuel, m);
      RowOfIndex(k, img.width, img.height);
      img.Set(ray.r, ray.c, color);
    }
  }

  /** The first render pass of the last version: each ray is traced from the eye;
      a pixel whose ray meets a surface gets that surface's clamped colour, every
      other pixel keeps the background. */
  method Render(sc: Scene, img: Image, rays: seq<PixelRay>, fuel: nat, m: Math)
    requires SceneValid(sc) && img.Valid() && IsGrid(rays, img.width, img.height)
    modifies img.pixels, SceneFrame(sc.surfaces)
    ensures forall k :: 0 <= k < |rays| ==>
              Shaded(HitTimes(sc.surfaces, rays[k].ray, m.sqrt), old(img.pixels[k]), img.pixels[k])
    ensures forall k :: 0 <= k < |rays| ==> AmbientShaded(sc, rays[k].ray, img.pixels[k], m)
  {
    ghost var before := img.pixels[..];
    for k := 0 to |rays|
      invariant img.pixels.Length == |before|
      invariant forall k' :: 0 <= k' < k ==>
                  Shaded(HitTimes(sc.surfaces, rays[k'].ray, m.sqrt), before[k'], img.pixels[k'])
      invariant forall k' :: 0 <= k' < k ==> AmbientShaded(sc, rays[k'].ray, img.pixels[k'], m)
      invariant img.pixels[k..] == before[k..]
    {
      RenderPixel(sc, img, rays[k], k, fuel, m);
      assert img.pixels[k + 1..] == before[k + 1..] by {
        assert forall j :: k < j < |before| ==> img.pixels[j] == before[j];
      }
    }
  }

  /** The surfaces the second version knows: spheres and ellipsoids. */
  predicate HardSurfaces(ss: seq<Surface>)
  {
    forall j :: 0 <= j < |ss| ==> ValidShape(ss[j]) && (ss[j].Sphere? || ss[j].Ellipsoid?)
  }

  /** The direction towards a light: minus its direction for a directional light
      (w = 0), the normalised p - intersect otherwise. */
  function LightDir(source: LightSource, intersect: Vec3, sqrt: real -> real): Vec3
  {
    if source.w == 0.0 then Scale(-1.0, source.p) else Normalized(Sub(source.p, intersect), sqrt)
  }

  /** A spotlight does not reach a point whose direction from it makes an angle
      with its axis whose cosine is below cos(theta). */
  predicate OutsideCone(source: LightSource, l: Vec3, m: Math)
  {
    IsSpotlight(source) && Dot(source.dir, Scale(-1.0, l)) < m.cos(source.theta * MainPi / 180.0)
  }

  /** The diffuse plus the specular term of the second version for light direction
      l, under the normal p - center. */
  function HardPhong(sc: Scene, s: nat, intersect: Vec3, l: Vec3, m: Math): Color
    requires HardSurfaces(sc.surfaces) && s < |sc.surfaces|
  {
    var surface := sc.surfaces[s];
    var mtl := MaterialOf(surface);
    var n := Normalized(Sub(intersect, surface.center), m.sqrt);
    var v := Normalized(Sub(sc.eye, intersect), m.sqrt);
    var h := Normalized(Add(l, v), m.sqrt);
    var d1, d2 := Dot(n, l), Dot(n, h);
    var diffuse := CScaleRight(CScale(mtl.kd, mtl.od), if d1 < 0.0 then 0.0 else d1);
    var specular := CScaleRight(CScale(mtl.ks, mtl.os), m.pow(if d2 < 0.0 then 0.0 else d2, mtl.n));
    CAdd(diffuse, specular)
  }

  /** Some other surface lies between `intersect` and light k. */
  predicate HardBlocked(sc: Scene, s: nat, intersect: Vec3, k: nat, m: Math)
    requires HardSurfaces(sc.surfaces) && k < |sc.lights|
  {
    var source := sc.lights[k];
    var shadowRay := MakeRay(intersect, LightDir(source, intersect, m.sqrt), true, m.sqrt);
    exists j :: 0 <= j < |sc.surfaces| && Occludes(sc.surfaces, source, shadowRay, s, intersect, j, m.sqrt)
  }

  /** What light k adds at `intersect` on surface s in the second version: the
      diffuse and specular terms times the light's intensity (white when it is the
      only light, none outside a spotlight's cone) and the hard shadow. */
  function HardLightTerm(sc: Scene, s: nat, intersect: Vec3, k: nat, m: Math): Color
    requires HardSurfaces(sc.surfaces) && s < |sc.surfaces| && k < |sc.lights|
  {
    var source := sc.lights[k];
    var l := LightDir(source, intersect, m.sqrt);
    var intensity := if OutsideCone(source, l, m) then Black else if |sc.lights| == 1 then White else source.c;
    CMul(CScale(HardShadow(HardBlocked(sc, s, intersect, k, m)), intensity), HardPhong(sc, s, intersect, l, m))
  }

  /** The ambient term plus the terms of the first n lights. */
  function HardLightSum(sc: Scene, s: nat, intersect: Vec3, n: nat, m: Math): Color
    requires HardSurfaces(sc.surfaces) && s < |sc.surfaces| && n <= |sc.lights|
  {
    if n == 0 then CScale(MaterialOf(sc.surfaces[s]).ka, MaterialOf(sc.surfaces[s]).od)
    else CAdd(HardLightSum(sc, s, intersect, n - 1, m), HardLightTerm(sc, s, intersect, n - 1, m))
  }

  /** The colour the second version gives surface s seen along r at t. */
  function ColorHard(sc: Scene, r: Ray, t: real, s: nat, m: Math): Color
    requires HardSurfaces(sc.surfaces) && s < |sc.surfaces|
  {
    Clamp(HardLightSum(sc, s, At(r, t), |sc.lights|, m))
  }

  /** The colour is clamped from above, and without lights it is the clamped
      ambient colour. */
  lemma ColorHardBounds(sc: Scene, r: Ray, t: real, s: nat, m: Math)
    requires HardSurfaces(sc.surfaces) && s < |sc.surfaces|
    ensures AtMostOne(ColorHard(sc, r, t, s, m))
    ensures |sc.lights| == 0 ==>
              ColorHard(sc, r, t, s, m) == Clamp(CScale(MaterialOf(sc.surfaces[s]).ka, MaterialOf(sc.surfaces[s]).od))
  {
  }

  /** A light that some other surface blocks adds nothing, and so does a spotlight
      whose cone does not reach the point. */
  lemma HardLightTermDark(sc: Scene, s: nat, intersect: Vec3, k: nat, m: Math)
    requires HardSurfaces(sc.surfaces) && s < |sc.surfaces| && k < |sc.lights|
    requires HardBlocked(sc, s, intersect, k, m) || OutsideCone(sc.lights[k], LightDir(sc.lights[k], intersect, m.sqrt), m)
    ensures HardLightTerm(sc, s, intersect, k, m) == Black
  {
  }

  /** Lights whose terms are all Black leave the ambient colour alone. */
  lemma {:induction false} HardLightSumDark(sc: Scene, s: nat, intersect: Vec3, n: nat, m: Math)
    requires HardSurfaces(sc.surfaces) && s < |sc.surfaces| && n <= |sc.lights|
    requires forall k :: 0 <= k < n ==> HardLightTerm(sc, s, intersect, k, m) == Black
    ensures HardLightSum(sc, s, intersect, n, m) == CScale(MaterialOf(sc.surfaces[s]).ka, MaterialOf(sc.surfaces[s]).od)
  {
    if n > 0 {
      HardLightSumDark(sc, s, intersect, n - 1, m);
    }
  }

  /** The surface colour of the second version: the ambient term plus, per light,
      the hard-shadowed diffuse and specular terms, clamped from above. That version
      has spheres and ellipsoids only and shades with the normal p - center. */
  method GetColorHard(sc: Scene, r: Ray, t: real, s: nat, m: Math) returns (c: Color)
    requires HardSurfaces(sc.surfaces) && s < |sc.surfaces|
    ensures c == ColorHard(sc, r, t, s, m)
  {
    var surface := sc.surfaces[s];
    var mtl := MaterialOf(surface);
    var intersect := At(r, t);
    var ret := CScale(mtl.ka, mtl.od);
    for k := 0 to |sc.lights|
      invariant ret == HardLightSum(sc, s, intersect, k, m)
    {
      var source := sc.lights[k];
      var l := LightDir(source, intersect, m.sqrt);
      var intensity := if |sc.lights| == 1 then White else source.c;
      var phong := HardPhong(sc, s, intersect, l, m);
      var shadow := HardShadowFlag(sc.surfaces, source, MakeRay(intersect, l, true, m.sqrt), s, intersect, m.sqrt);
      if OutsideCone(source, l, m) {
        intensity := Black;
      }
      var color := CMul(CScale(shadow, intensity), phong);
      assert color == HardLightTerm(sc, s, intersect, k, m) by {
        assert shadow == HardShadow(HardBlocked(sc, s, intersect, k, m));
      }
      ret := CAdd(ret, color);
    }
    c := Clamp(ret);
  }

  /** What the second version's pixel loop leaves in a pixel: the colour of the
      surface with the nearest positive hit, or the old colour without one. */
  function HardPixel(sc: Scene, ray: Ray, before: Color, m: Math): Color
    requires HardSurfaces(sc.surfaces)
  {
    var ts := HitTimes(sc.surfaces, ray, m.sqrt);
    match NearestOf(PositiveOnly, ts)
    case None => before
    case Some(i) => ColorHard(sc, ray, ts[i].value, i, m)
  }

  /** That pixel is shaded: kept without a hit, clamped from above with one. */
  lemma HardPixelShaded(sc: Scene, ray: Ray, before: Color, m: Math)
    requires HardSurfaces(sc.surfaces)
    ensures Shaded(HitTimes(sc.surfaces, ray, m.sqrt), before, HardPixel(sc, ray, before, m))
  {
    var ts := HitTimes(sc.surfaces, ray, m.sqrt);
    if NearestOf(PositiveOnly, ts).Some? {
      var i := NearestOf(PositiveOnly, ts).value;
      ColorHardBounds(sc, ray, ts[i].value, i, m);
    }
  }

  /** One pixel of the pixel loop of the second version. */
  method RenderPixelHard(sc: Scene, img: Image, ray: PixelRay, k: nat, m: Math)
    requires img.Valid() && k < img.pixels.Length
    requires 0 < img.width && ray.r == k / img.width && ray.c == k % img.width
    requires HardSurfaces(sc.surfaces)
    modifies img.pixels
    ensures img.pixels[..] == old(img.pixels[..])[k := img.pixels[k]]
    ensures img.pixels[k] == HardPixel(sc, ray.ray, old(img.pixels[k]), m)
  {
    var alphas := seq(|sc.surfaces|, j requires 0 <= j < |sc.surfaces| => HitOfMin(sc.surfaces[j], ray.ray, m.sqrt));
    assert alphas == HitTimes(sc.surfaces, ray.ray, m.sqrt);
    var s := SelectNearest(PositiveOnly, alphas);
    if s.Some? {
      var color := GetColorHard(sc, ray.ray, alphas[s.value].value, s.value, m);
      RowOfIndex(k, img.width, img.height);
      img.Set(ray.r, ray.c, color);
    }
  }

  /** The pixel loop of the second version: the nearest positive hit of each ray
      picks the surface whose colour the pixel gets; without a hit the pixel keeps
      the background. */
  method RenderHard(sc: Scene, img: Image, rays: seq<PixelRay>, m: Math)
    requires img.Valid() && IsGrid(rays, img.width, img.height)
    requires HardSurfaces(sc.surfaces)
    modifies img.pixels
    ensures forall k :: 0 <= k < |rays| ==> img.pixels[k] == HardPixel(sc, rays[k].ray, old(img.pixels[k]), m)
    ensures forall k :: 0 <= k < |rays| ==>
              Shaded(HitTimes(sc.surfaces, rays[k].ray, m.sqrt), old(img.pixels[k]), img.pixels[k])
  {
    ghost var before := img.pixels[..];
    for k := 0 to |rays|
      invariant img.pixels.Length == |before|
      invariant forall k' :: 0 <= k' < k ==> img.pixels[k'] == HardPixel(sc, rays[k'].ray, before[k'], m)
      invariant img.pixels[k..] == before[k..]
    {
      RenderPixelHard(sc, img, rays[k], k, m);
      assert img.pixels[k + 1..] == before[k + 1..] by {
        assert forall j :: k < j < |before| ==> img.pixels[j] == before[j];
      }
    }
    forall k | 0 <= k < |rays|
      ensures Shaded(HitTimes(sc.surfaces, rays[k].ray, m.sqrt), before[k], img.pixels[k])
    {
      HardPixelShaded(sc, rays[k].ray, before[k], m);
    }
  }

  /** A surface of the first version: its intersection routine (not part of this
      model) and its material colour. */
  datatype FlatSurface = FlatSurface(hit: Ray -> Option<real>, color: Color)

  function FlatTimes(ss: seq<FlatSurface>, ray: Ray): (ts: seq<Option<real>>)
    ensures |ts| == |ss| && forall j :: 0 <= j < |ss| ==> ts[j] == ss[j].hit(ray)
  {
    seq(|ss|, j requires 0 <= j < |ss| => ss[j].hit(ray))
  }

  /** The pixel loop of the first version: a pixel takes the material colour of
      the surface with the smallest hit value other than -1, the earlier surface
      winning ties; without one it keeps the background. */
  method RenderFlat(ss: seq<FlatSurface>, img: Image, rays: seq<PixelRay>)
    requires img.Valid() && IsGrid(rays, img.width, img.height)
    modifies img.pixels
    ensures forall k :: 0 <= k < |rays| ==>
              img.pixels[k] == match NearestOf(AnyButMinusOne, FlatTimes(ss, rays[k].ray))
                               case None => old(img.pixels[k])
                               case Some(i) => ss[i].color
  {
    for k := 0 to |rays|
      invariant forall k' :: 0 <= k' < k ==>
                  img.pixels[k'] == match NearestOf(AnyButMinusOne, FlatTimes(ss, rays[k'].ray))
                                    case None => old(img.pixels[k'])
                                    case Some(i) => ss[i].color
      invariant forall k' :: k <= k' < |rays| ==> img.pixels[k'] == old(img.pixels[k'])
    {
      var ray := rays[k];
      var alphas := FlatTimes(ss, ray.ray);
      var s := SelectNearest(AnyButMinusOne, alphas);
      if s.Some? {
        RowOfIndex(k, img.width, img.height);
        img.Set(ray.r, ray.c, ss[s.value].color);
      }
    }
  }
}
