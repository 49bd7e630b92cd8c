# A Whitted-style ray tracer, modelled in Dafny

The repository holds four successive versions of a small C++ ray tracer.

- **RT1** reads a scene of spheres and ellipsoids, shoots one ray per pixel through a view window and paints each pixel with the flat colour of the nearest surface. It writes the result as a plain-text PPM (P3) image.
- **RT2** adds Phong shading, directional, point and spot lights, and hard shadows.
- **RT3** extends the scene reader with vertex pools, triangles (`f` lines with `v/vt/vn` indices), textures and the `parallel` keyword.
- **RT4** adds texture sampling, soft shadows weighted by opacity, Fresnel (Schlick) reflection, refraction with Beer's law, and a nudge-and-retry loop for rays that start on a surface.

The model follows the code's own layout, one module per concern:

| module | file | what it holds |
|---|---|---|
| `Numerics` | numerics.dfy | the option type, C `round`, the record of transcendental functions (`sqrt`, `pow`, `tan`, `cos`, `exp`, `atan2`, `acos`) passed as parameters, and arithmetic lemmas |
| `Geometry` | geometry.dfy | `Vec3` and `Color` arithmetic, with a `Vector` class for the in-place `normalize()` |
| `Rays` | rays.dfy | the ray value of RT2–RT4 and the RT1 ray whose origin is a reference |
| `Text` | text.dfy | `%i` formatting and whitespace tokenising, used to state what a saved image reads back as |
| `Images` | images.dfy | `Image` (a class over an array of pixels), P3 output, and the `ViewWindow` that builds one ray per pixel |
| `Textures` | textures.dfy | texture loading and the clamped bilinear `operator()(u, v)` |
| `Nearest` | nearest.dfy | the "first of the smallest accepted hit" loop shared by all pixel loops and `trace_ray` |
| `Shading` | shading.dfy | the upper-only colour clamp, Schlick reflectance, and soft and hard shadow factors |
| `Surfaces` | surfaces.dfy | `solve_quadratic`, spheres, ellipsoids, and triangles (a class with a mutable barycentric cache that `hit` writes and `get_normal`, `get_u`, `get_v` read) |
| `Lights` | lights.dfy | `Light` and `Spotlight` |
| `Tracer` | tracer.dfy | `trace_ray`, shadow factors, the reflection and refraction loops, `get_color` and the render passes of RT1, RT2 and RT4 |
| `Paths` | paths.dfy | `remove_ext` and `get_path` |
| `Parser` | parser.dfy | `parse_input` for the three scene-file dialects, as a pure line-by-line specification plus the loop that runs it |

Floating-point numbers are modelled as mathematical reals. A value that is NaN in the source is `None`. Transcendental functions are parameters. Only one fact is assumed about them: the square root squares back to its argument (`IsSqrt`), and only where a lemma says so.

## Model

| member | source | states |
|---|---|---|
| Numerics.Round | RT4/image.cpp:57 | C `round` lands within one half of its argument |
| Geometry.ScaleSidesAgree | RT2/geometry.cpp:149-155 | `c*v` and `v*c` give the same vector, and the same holds for colours |
| Geometry.SubThenAdd | RT2/geometry.cpp:141-147 | subtracting then adding a vector, or adding then subtracting it, gives back the original |
| Geometry.DotSymmetric | RT2/geometry.cpp:116-118 | the dot product is symmetric |
| Geometry.DotSelfNonNegative | RT2/geometry.cpp:116-118 | v·v is non-negative |
| Geometry.NormSquared | RT1/geometry.cpp:45-47 | the norm is non-negative and squares to v·v |
| Geometry.DotLinearLeft | RT2/geometry.cpp:116-118 | the dot product is linear in its first argument |
| Geometry.CrossOrthogonal | RT2/geometry.cpp:125-130 | the cross product is orthogonal to both factors |
| Geometry.CrossAntiCommutes | RT1/geometry.cpp:75-80 | swapping the factors negates the cross product |
| Geometry.LagrangeIdentity | RT2/geometry.cpp:116-130 | \|a×b\|² + (a·b)² = \|a\|²\|b\|² |
| Geometry.UnitDotBounded | RT2/geometry.cpp:116-118 | the dot product of two unit vectors lies in [-1, 1] |
| Geometry.NormalizedIsUnit | RT2/geometry.cpp:103-109 | normalising a non-zero vector gives a unit vector |
| Geometry.NormOfScale | RT2/geometry.cpp:95-97 | \|k·v\| = \|k\|·\|v\| |
| Geometry.NormalizedOfPositiveScale | RT2/geometry.cpp:103-109 | normalising is unchanged by a positive scale factor |
| Geometry.NormalOrthogonal | RT2/geometry.cpp:103-109 | a vector orthogonal to v is orthogonal to normalised v |
| Geometry.ColorAddCommutes | RT2/geometry.cpp:24-26 | colour addition commutes |
| Geometry.ColorSubBlueUsesGreen | RT2/geometry.cpp:28-30 | colour subtraction's blue channel is computed from green: c − c is not black when blue ≠ green |
| Geometry.Vector.constructor | RT2/geometry.cpp:87-89 | the new vector holds the given components |
| Geometry.Vector.Normalize | RT1/geometry.cpp:53-59 | the receiver becomes its normalised old value (unit length when non-zero), and the receiver itself is returned |
| Rays.MakeRay | RT4/geometry.hpp:75 | the origin is the eye; the direction is the given one, or the normalised eye-to-target vector |
| Rays.At | RT4/geometry.hpp:76-78 | the point at t lies t directions away from the origin |
| Rays.MakeRayPointsToTarget | RT4/geometry.hpp:75 | an eye-to-target ray has unit direction, and walking the eye-target distance along it reaches the target |
| Rays.AtShift | RT4/main.cpp:319 | moving the origin to the point at o and then going t further is going o + t along the old ray |
| Rays.AtZero | RT4/geometry.hpp:76-78 | the point at 0 is the origin |
| Rays.AliasRay.constructor | RT1/geometry.hpp:53-55 | the origin is the caller's vector itself (an alias), and the direction is normalised |
| Rays.AliasRay.Point | RT1/geometry.hpp:56-58 | a point is computed from the origin's current value |
| Rays.MoveAliasedOrigin | RT1/geometry.hpp:53-58 | moving the vector the ray aliases moves every point of the ray |
| Text.Itoa | RT4/image.cpp:58 | `%i` output is non-empty, without blanks, and starts with '-' exactly for negatives |
| Text.AtoiItoa | RT4/image.cpp:45-58 | reading back a formatted integer gives the integer |
| Text.Word | RT4/image.cpp:175-181 | the first word is a blank-free prefix ended by a blank or the end |
| Text.Tokens | RT4/image.cpp:175-181 | tokens are non-empty and blank-free |
| Text.TokensOfAppend | RT4/image.cpp:44-58 | tokenising text joined at a blank is tokenising each part |
| Images.PixelIndexInBounds | RT4/image.cpp:72-74 | every in-image (row, column) addresses an element of the buffer |
| Images.RowMajor | RT4/image.cpp:72-74 | the buffer index divided and reduced by the width gives back the row and the column |
| Images.PixelIndexInjective | RT4/image.cpp:72-74 | distinct pixels have distinct buffer indices |
| Images.Image.constructor | RT4/image.cpp:25-31 | every pixel of the new width·height image is the background colour |
| Images.Image.Set | RT4/image.cpp:72-74 | writing through `img(r, c)` changes exactly that pixel |
| Images.Image.Save | RT4/image.cpp:37-64 | the writes are the header then one newline per five pixels and a rounded triple per pixel, and together they form the P3 text |
| Images.Channel | RT4/image.cpp:57 | a channel in [0, 1] is written as an integer in [0, 255] |
| Images.Samples | RT4/image.cpp:50-59 | three numbers per pixel |
| Images.BodyText | RT4/image.cpp:50-59 | a non-empty body starts with a newline and ends with a blank |
| Images.TokensOfTriple | RT4/image.cpp:58 | one pixel reads back as its three rounded channels |
| Images.TokensOfDimensions | RT4/image.cpp:45 | the dimension line reads back as width and height |
| Images.ConcatOfPixel | RT4/image.cpp:52-58 | one pixel's writes are the optional line break then the triple |
| Images.ConcatOfBody | RT4/image.cpp:50-59 | the body's writes concatenate to the body text |
| Images.TokensOfBody | RT4/image.cpp:50-59 | the body reads back as the channel values, pixel by pixel |
| Images.TokensOfHeader | RT4/image.cpp:44-46 | the header reads back as P3, width, height, 255 |
| Images.SavedTokens | RT4/image.cpp:44-58 | the whole file reads back as the header tokens followed by the samples |
| Images.SavedTextReadsBack | RT1/image.cpp:38-52 | a saved image parses back to its width, its height and every pixel's rounded channels |
| Images.SamplesAt | RT4/image.cpp:56-58 | pixel k's channels are samples 3k, 3k+1, 3k+2 |
| Images.ViewWindow.constructor | RT4/image.cpp:87-126 | distance 1, aspect w/h, window height 2·tan(fovv/2), window width height·aspect, and one ray per pixel in row-major order |
| Images.ViewWindow.GridRays | RT4/image.cpp:117-125 | the loop builds exactly the row-major grid of pixel rays |
| Images.EveryPixelHasItsRay | RT4/image.cpp:117-125 | every pixel of the image has its ray at its buffer index |
| Images.WindowAxesOrthogonal | RT4/image.cpp:96-97 | the window's u and v axes are orthogonal to the view direction |
| Images.StepOrthogonal | RT4/image.cpp:114-115 | the per-pixel steps stay orthogonal to the view direction |
| Images.GridPointOnPlane | RT4/image.cpp:103-120 | every grid point lies on the window plane at the window's distance along the view direction |
| Images.ParallelRays | RT4/image.cpp:103-121 | in parallel projection each ray starts at its grid point on the eye plane and runs along the view direction |
| Images.PerspectiveRays | RT1/image.cpp:90-108 | in perspective each ray starts at the eye and its unit direction reaches its grid point on the plane at distance 1 |
| Lights.LightSource.Light | RT3/lights.cpp:20-31 | a direction (w = 0) is stored normalised, a position as given; w and colour are kept; not a spotlight |
| Lights.LightSource.Spotlight | RT3/lights.cpp:43-50 | position, normalised cone direction, angle and colour are kept, and w is the tag -1 |
| Lights.StoredDirectionsAreUnit | RT3/lights.cpp:20-50 | stored light and cone directions are unit vectors |
| Lights.SpotlightTestIsExact | RT4/main.cpp:285-289 | the dynamic-type test separates lights from spotlights for every w, while the tag test fails exactly at w = -1 |
| Lights.TagMistakesLight | RT3/lights.cpp:29-30 | a `Light` built with w = -1 passes the tag test but is not a spotlight |
| Nearest.NearestUpTo | RT4/main.cpp:323-331 | the loop's choice is an accepted hit among those seen |
| Nearest.NearestUpToIsNearest | RT4/main.cpp:323-331 | the loop finds nothing exactly when nothing is accepted, and otherwise the first of the smallest accepted hits |
| Nearest.NearestUnique | RT4/main.cpp:326 | the first smallest accepted hit is unique |
| Nearest.NearestOfIsNearest | RT2/main.cpp:165-172 | any position meeting the specification is the loop's choice |
| Nearest.NegativeHitWins | RT1/main.cpp:46 | under RT1's rule a negative hit beats a positive one; under the later rule it does not |
| Nearest.TiesGoToTheEarlier | RT2/main.cpp:167 | of equal hits the earlier surface is kept |
| Nearest.SelectNearest | RT2/main.cpp:163-172 | the loop over surfaces returns the first of the smallest accepted hits, or none exactly when none is accepted |
| Shading.ClampChannel | RT4/main.cpp:20 | the channel is at most 1, no larger than before, and unchanged when already at most 1 |
| Shading.Clamp | RT4/main.cpp:20-21 | every channel is at most 1 and never raised; colours already at most 1 are unchanged |
| Shading.ClampIdempotent | RT4/main.cpp:20-21 | clamping twice is clamping once; colours in [0, 1] are left alone |
| Shading.NormalReflectance | RT4/main.cpp:186 | F0 is non-negative |
| Shading.FacingNormal | RT4/main.cpp:181-185 | the flipped normal faces the incoming direction, is ±N, and the cosine is \|I·N\| |
| Shading.NormalReflectanceInUnit | RT4/main.cpp:186 | F0 lies in [0, 1] for a non-negative index |
| Shading.SchlickInUnit | RT4/main.cpp:186-187 | Fr lies in [0, 1] and is at least F0 |
| Shading.SchlickEnds | RT4/main.cpp:187 | head-on Fr is F0; grazing Fr is 1 |
| Shading.FresnelInUnit | RT4/main.cpp:181-187 | with unit I and N, the flipped cosine and Fr both lie in [0, 1] |
| Shading.SoftShadow | RT4/main.cpp:83-86 | without occluders the factor is 1 |
| Shading.SoftShadowInUnit | RT4/main.cpp:54-86 | with opacities in [0, 1] the factor lies in [0, 1] |
| Shading.OpaqueSoftShadowIsHard | RT2/main.cpp:51-53 | with opaque occluders the average equals the earlier all-or-nothing flag |
| Surfaces.SolveQuadratic | RT4/surfaces.cpp:16-27 | a negative discriminant is a miss (NaN); otherwise the smaller root comes first and the larger one is reported too |
| Surfaces.SolveQuadraticMin | RT2/surfaces.cpp:14-24 | the earlier version returns the same smaller root |
| Surfaces.QuadraticRoot | RT4/surfaces.cpp:21-23 | (−b ± √disc)/2a is a root |
| Surfaces.SolveQuadraticRoots | RT4/surfaces.cpp:21-26 | both reported values are roots of the quadratic |
| Surfaces.EllipsoidCoeffs | RT4/surfaces.cpp:187-201 | the coefficients are those of the axis-scaled unit-sphere equation |
| Surfaces.SphereRootOnSurface | RT4/surfaces.cpp:103-110 | a root of the sphere quadratic lies on the sphere |
| Surfaces.EllipsoidRootOnSurface | RT4/surfaces.cpp:187-201 | a root of the ellipsoid quadratic lies on the ellipsoid |
| Surfaces.SphereU | RT4/surfaces.cpp:126-133 | u lies in [0, 1) |
| Surfaces.SphereV | RT4/surfaces.cpp:140-146 | v lies in [0, 1] |
| Surfaces.EllipsoidU | RT4/surfaces.cpp:218-223 | u lies in [0.5, 1.5], not [0, 1] |
| Surfaces.EllipsoidV | RT4/surfaces.cpp:230-233 | v lies in [0, 1] |
| Surfaces.Weights | RT4/surfaces.cpp:302-304 | barycentric weights exist exactly when the triangle's area is non-zero |
| Surfaces.Triangle.constructor | RT4/surfaces.cpp:251-279 | vertices, texture coordinates and normals come from the 1-based pools; texture and normal use depend on a non-zero first index; the plane goes through the vertices |
| Surfaces.Triangle.Probe | RT4/surfaces.cpp:293-306 | a ray lying in the plane (parameter NaN) reports -1 and leaves `out_t_max` untouched; a parallel ray off the plane reports and stores -1; otherwise the weights are taken at the plane point, and the hit is the plane parameter when inside and -1 when outside, stored in `out_t_max` too |
| Surfaces.Triangle.Hit | RT4/surfaces.cpp:293-306 | returns the probe's hit; the cache takes the weights at the plane point when they are finite and otherwise keeps its old value |
| Surfaces.Triangle.Normal | RT4/surfaces.cpp:313-316 | the plane normal, or the normalised interpolation of the vertex normals at the cached weights |
| Surfaces.Triangle.U | RT4/surfaces.cpp:323-330 | defined exactly for textured triangles: the interpolated u at the cached weights |
| Surfaces.Triangle.V | RT4/surfaces.cpp:337-344 | defined exactly for textured triangles: the interpolated v at the cached weights |
| Surfaces.PlaneThroughVertices | RT4/surfaces.cpp:277-278 | all three vertices satisfy the plane equation |
| Surfaces.TriangleHitOnPlane | RT4/surfaces.cpp:297-305 | an accepted hit point lies on the plane |
| Surfaces.TexCoordInRange | RT4/surfaces.cpp:323-330 | inside the triangle, interpolated coordinates from [0, 1] lie in [0, 1 + epsilon] |
| Surfaces.AcceptedHitCachesInTriangle | RT4/surfaces.cpp:302-305 | an accepted hit leaves weights inside the triangle in the cache, so its u lies in [0, 1 + epsilon] |
| Surfaces.FlatNormalIsUnit | RT4/surfaces.cpp:313-316 | a triangle without vertex normals has a unit normal |
| Surfaces.HitOf | RT4/surfaces.cpp:40-42 | the base surface reports -1 for both values; each shape dispatches to its own test; a positive hit always has a far value |
| Surfaces.HitOfMin | RT2/surfaces.cpp:31-33 | the earlier single-value `hit` gives the same nearest value |
| Surfaces.SphereHitOnSurface | RT2/surfaces.cpp:77-84 | both reported sphere hits lie on the sphere |
| Surfaces.EllipsoidHitOnSurface | RT2/surfaces.cpp:125-140 | both reported ellipsoid hits lie on the ellipsoid |
| Surfaces.SurfaceHit | RT4/main.cpp:325 | the virtual `hit` call returns the shape's hit and updates only a triangle's cache |
| Surfaces.NormalAt | RT4/surfaces.cpp:117-119 | spheres and ellipsoids give the normalised centre-to-point vector; triangles their normal; the base surface returns the point |
| Surfaces.TexCoordAt | RT4/surfaces.cpp:55-62 | only an untextured triangle has no (u, v); the base surface gives (-1, -1) |
| Textures.Decode | RT4/image.cpp:182 | byte values 0..255 decode to channels in [0, 1] |
| Textures.ChannelOfDecoded | RT4/image.cpp:182 | a decoded byte is written back as the same byte |
| Textures.ClampUnit | RT4/image.cpp:198-199 | coordinates are clamped into [0, 1] |
| Textures.Locate | RT4/image.cpp:200-207 | the texel index lies in the texture, the fraction in [0, 1), and together they give the scaled coordinate |
| Textures.LocateAtTexel | RT4/image.cpp:200-207 | the coordinate of texel c locates exactly c with no fraction |
| Textures.LocateEnds | RT4/image.cpp:200-207 | 0 locates the first texel, 1 the last |
| Textures.BilinearWeights | RT4/image.cpp:209-215 | the four weights are non-negative and sum to 1 |
| Textures.Texture.Load | RT4/image.cpp:160-185 | texel k is the k-th byte triple divided by 255 |
| Textures.FillTexels | RT4/image.cpp:179-183 | the fill loop stores every decoded texel at its row-major place |
| Textures.RowOfIndex | RT4/image.cpp:179-183 | `index/width`, `index%width` is an in-image pixel whose buffer index is `index` |
| Textures.SampleIsBilinear | RT4/image.cpp:197-217 | the guarded sum equals bilinear interpolation with edge texels repeated |
| Textures.SampleCases | RT4/image.cpp:209-216 | the four guarded cases of the sum |
| Textures.UniformTexture | RT4/image.cpp:197-217 | a one-colour texture samples to that colour everywhere |
| Textures.SampleAtTexel | RT4/image.cpp:197-217 | sampling at a texel's coordinates returns that texel |
| Textures.SampleAtCorners | RT4/image.cpp:197-217 | (0, 0) is the first texel and (1, 1) the last |
| Tracer.HitTimes | RT4/main.cpp:323-325 | one hit value per surface, in order |
| Tracer.OutAlpha | RT4/main.cpp:333 | a hit closer than 0.001 reports the far value instead |
| Tracer.HitAt | RT4/main.cpp:325 | one hit call changes only that surface's cache |
| Tracer.TraceRay | RT4/main.cpp:318-335 | from the origin moved by the offset, the chosen surface is the first of the smallest positive hits, the out value is chosen by the 0.001 rule, every triangle's cache is updated, and an accepted triangle caches weights inside itself |
| Tracer.AcceptedHitCached | RT4/main.cpp:326-329 | a positive triangle hit leaves in-triangle weights in the cache |
| Tracer.OccluderAlphas | RT4/main.cpp:58-80 | at most one opacity per surface |
| Tracer.NoOccluderNoAlphas | RT4/main.cpp:58-80 | the list of counted opacities is empty exactly when no surface occludes |
| Tracer.OccluderAlphasFromOccluders | RT4/main.cpp:58-80 | each counted opacity is the opacity of some occluding surface |
| Tracer.ShadowFactor | RT4/main.cpp:54-87 | the factor is the soft shadow of the occluders' opacities; the shaded surface's cache is untouched |
| Tracer.Blocks | RT4/main.cpp:59-72 | the validity test for one surface is the occlusion predicate |
| Tracer.ShadowFactorInUnit | RT4/main.cpp:83-86 | the soft shadow factor lies in [0, 1] |
| Tracer.HardShadowFlag | RT2/main.cpp:33-60 | the flag is 0 exactly when some surface occludes |
| Tracer.OpaqueShadowsAgree | RT2/main.cpp:45-53 | with opaque surfaces the soft factor equals the hard flag |
| Tracer.NudgedTrace | RT4/main.cpp:193-198 | the offset only grows from 0.02; the result is the nearest positive hit of the first ray, or after a retry of the retry ray, from the nudged origin, with that surface's out value; the loop ends on a miss, on a value of at least 0.02, or at the retry limit; a first ray that misses ends it at once |
| Tracer.ReflectRay | RT4/main.cpp:176-209 | the colour is clamped from above; at most `depth` bounces are made, and the stop reason is the used-up depth exactly when all of them were; depth ≤ 0 or a negative index gives black; a first reflected ray that meets nothing stops the loop with black and no bounce |
| Tracer.RefractRay | RT4/main.cpp:100-164 | at most `depth` passes are made, and the stop reason is the used-up depth exactly when all of them were; depth 0 or a negative index gives black; a first entry ray that meets nothing stops the loop with black and no pass |
| Tracer.DiffuseColor | RT4/main.cpp:230-237 | an untextured surface's material colour, or the texture sampled at the surface's (u, v) |
| Tracer.GetColor | RT4/main.cpp:223-310 | the colour is clamped from above, and with no lights an untextured surface shows its clamped ambient term |
| Tracer.RenderPixel | RT4/main.cpp:365-368 | only pixel k changes, and only when its ray hits something; a shaded pixel is clamped; without lights, a pixel whose nearest surface is untextured gets that surface's clamped ambient colour |
| Tracer.Render | RT4/main.cpp:364-369 | every pixel without a hit keeps the background; every other pixel is a clamped shade, and without lights the clamped ambient colour of its nearest untextured surface |
| Tracer.GetColorHard | RT2/main.cpp:69-135 | RT2's colour is the clamped sum of the ambient term and every light's shadowed, spot-limited diffuse and specular term |
| Tracer.ColorHardBounds | RT2/main.cpp:77-78 | RT2's colour is clamped from above, and with no lights it is the clamped ambient term |
| Tracer.HardLightTermDark | RT2/main.cpp:103-129 | a light some other surface blocks, or a spotlight whose cone misses the point, adds nothing |
| Tracer.HardLightSumDark | RT2/main.cpp:78-131 | when every light adds nothing the sum is the ambient term |
| Tracer.HardPixelShaded | RT2/main.cpp:161-175 | the pixel RT2 writes is kept without a positive hit and clamped from above with one |
| Tracer.RenderPixelHard | RT2/main.cpp:161-175 | RT2's pixel step changes only its pixel: it keeps its colour without a positive hit and otherwise takes the colour of the surface with the nearest positive hit at that hit |
| Tracer.RenderHard | RT2/main.cpp:160-176 | every pixel of RT2's pass keeps the background without a positive hit and otherwise takes the colour of the surface its ray meets first; that colour is clamped |
| Tracer.FlatTimes | RT1/main.cpp:43-45 | one hit value per surface, in order |
| Tracer.RenderFlat | RT1/main.cpp:38-54 | each pixel takes the flat colour of the first smallest non-(-1) hit, or keeps its colour |
| Paths.LastIndexOf | RT3/utils.cpp:254 | `strrchr`: the last occurrence, or none when the character is absent |
| Paths.FirstIndexOf | RT3/utils.cpp:154 | `find`: the first occurrence, or none when the character is absent |
| Paths.DotRunStart | RT3/utils.cpp:263 | the start of the run of dots ending at the last dot |
| Paths.RemoveExt | RT3/utils.cpp:252-277 | the result is a prefix: either the name itself, or the name cut at a dot with no separator after it |
| Paths.RemoveExtension | RT2/utils.cpp:188-213 | the character walk computes `RemoveExt` |
| Paths.RemoveExtOfName | RT3/utils.cpp:261-274 | a stem followed by a run of dots and a dot-free, separator-free extension loses exactly the dots and the extension |
| Paths.RemoveExtKeeps | RT3/utils.cpp:255-276 | names without a dot, or whose last dot is followed by a separator, are unchanged |
| Paths.DotsGoWithTheExtension | RT3/utils.cpp:263 | "out..ppm" becomes "out" |
| Paths.GetPath | RT3/utils.cpp:286-293 | the result ends in '/': the prefix through the last slash, or "./" |
| Paths.GetPathOfJoin | RT3/utils.cpp:286-293 | a directory joined with a plain name gives back the directory |
| Parser.Direction | RT3/utils.cpp:57-80 | fewer than three fields is an error; a near-unit direction is kept; any other is rejected by RT1 and normalised later |
| Parser.ReadMaterial | RT2/utils.cpp:109-121 | accepted exactly when the fields are present and colours and constants lie in [0, 1]; RT1 gives a flat colour, later versions Phong |
| Parser.LeadingDigits | RT3/utils.cpp:157 | the longest run of leading digits |
| Parser.CAtoiItoa | RT3/utils.cpp:157 | `atoi` reads back a formatted index |
| Parser.SplitVertexOnly | RT3/utils.cpp:156-157 | "v" gives vertex v and zero texture and normal indices |
| Parser.SplitVertexTexture | RT3/utils.cpp:159-162 | "v/t" gives vertex v and texture index t |
| Parser.SplitVertexNormal | RT3/utils.cpp:163-167 | "v//n" gives vertex v, texture 0 and normal n |
| Parser.SplitAllThree | RT3/utils.cpp:163-167 | "v/t/n" gives all three indices |
| Parser.ReadFaceAsWritten | RT3/utils.cpp:146-173 | accepted exactly when three non-empty tokens have texture and normal indices within the pools read so far |
| Parser.VertexIndexUnchecked | RT3/utils.cpp:168-169 | "f 1 2 3" with empty pools passes the check although the triangle reads outside the pools |
| Parser.LaterTextureIndexUnchecked | RT3/utils.cpp:168-169 | "f 1/1 2 3/1" passes the check although the second corner reads texture coordinate 0 - 1 |
| Parser.ReadFace | RT3/utils.cpp:168-171 | accepted exactly when the written check passes and every index the triangle follows is inside the pools |
| Parser.Step | RT3/utils.cpp:41-232 | a blank line changes nothing; an unknown keyword is an error |
| Parser.ReadSetting | RT3/utils.cpp:48-110 | a viewing-parameter line changes only the parameters and marks exactly its own keyword as seen |
| Parser.SetMaterial | RT3/utils.cpp:111-123 | `mtlcolor` replaces only the current material, and succeeds exactly when the material reads |
| Parser.ReadShape | RT3/utils.cpp:124-173 | a shape line appends exactly one shape and changes nothing else |
| Parser.ReadLight | RT3/utils.cpp:198-221 | a light line appends exactly one light, whose colour lies in [0, 1], and changes nothing else |
| Parser.ReadPool | RT3/utils.cpp:174-197 | `v`, `vt` and `vn` only extend the pools, the two texture-coordinate pools grow together, and new coordinates lie in [0, 1] |
| Parser.AddTexture | RT3/utils.cpp:222-227 | `texture` appends one texture and moves the texture index on by one, changing nothing else |
| Parser.StepTextures | RT3/utils.cpp:222-227 | the texture list and index grow by one on a `texture` line and stay put on every other accepted line |
| Parser.StepGot | RT3/utils.cpp:48-110 | an accepted line marks its own required keyword and nothing else |
| Parser.FailureSticks | RT3/utils.cpp:41-232 | after an exception no later line changes the outcome |
| Parser.ParseInput | RT3/utils.cpp:26-246 | the line loop with its final checks computes `Parse` |
| Parser.FacesKeepFitting | RT3/utils.cpp:174-197 | growing the pools and the texture list keeps earlier shapes' faces and texture indices inside them |
| Parser.StepKeepsWellformed | RT3/utils.cpp:41-232 | every accepted line keeps the reader's checks true |
| Parser.PoolLineKeepsWellformed | RT3/utils.cpp:174-197 | `v`, `vt` and `vn` lines keep them; texture coordinates stay in [0, 1] |
| Parser.TextureLineKeepsWellformed | RT3/utils.cpp:222-227 | `texture` keeps the texture index equal to the number of textures minus one |
| Parser.ShapeLineKeepsWellformed | RT3/utils.cpp:124-173 | shapes get positive radii, a valid material and texture index, and faces inside the pools |
| Parser.LightLineKeepsWellformed | RT3/utils.cpp:198-221 | light colours lie in [0, 1] |
| Parser.SettingLineKeepsWellformed | RT3/utils.cpp:48-110 | the viewing-parameter lines keep the checks |
| Parser.DirectionLineKeepsWellformed | RT3/utils.cpp:57-80 | `viewdir` and `updir` keep them (near-unit in RT1) |
| Parser.MaterialLineKeepsWellformed | RT3/utils.cpp:111-123 | `mtlcolor` keeps the current material valid |
| Parser.ValueLineKeepsWellformed | RT3/utils.cpp:81-110 | `fovv` stays below 180, `imsize` positive, `bkgcolor` in [0, 1] |
| Parser.RunWellformed | RT3/utils.cpp:41-232 | every state the loop reaches satisfies the checks |
| Parser.GotOnlySeen | RT3/utils.cpp:36-110 | a required keyword is marked only when a line carried it |
| Parser.UnknownKeywordRejected | RT3/utils.cpp:230-231 | one unknown keyword fails the whole file |
| Parser.AcceptedFile | RT3/utils.cpp:234-245 | an accepted file carried all six required keywords, satisfies the checks, and has non-parallel up and view directions |
| Parser.MissingKeywordRejected | RT3/utils.cpp:235-237 | a file lacking a required keyword fails |
| Parser.TextureCounter | RT3/utils.cpp:222-227 | `t_idx` is the number of `texture` lines read minus one, and one texture is kept per line |

## Left out

- File and console I/O (`fopen`, `fprintf`, `printf`, `exit`) is not modelled. `Image.Save` returns the sequence of strings it would write. The parser takes the file's lines as already split: keyword, numeric fields and word fields.
- `stringstream` number parsing is not modelled. A field that does not parse as a number is not represented. The `imsize` fields are taken by `Floor`.
- The texture file itself is not parsed. Its width, height and byte triples are parameters of `Texture.Load`.
- Randomness (`srand`, `default_random_engine`, `randn`) and the jittered shadow and depth-of-field loops are not modelled. With the shipped bundle size of 1 they reduce to the single shadow ray that the model keeps.
- The depth-of-field pass of RT4 (main.cpp:372-389) is not modelled, including its division of every pixel by 2.
- Transcendental functions are parameters and their values are not constrained, beyond `sqrt` squaring back. So the model does not state:
  - that the u and v mappings are exact;
  - the Snell refraction direction, or the NaN of total internal reflection;
  - Beer's law `exp`, the specular `pow`, or the spotlight `cos` cut-off.
- Floating-point rounding and overflow are not modelled; reals are exact.
- The source's division by zero has no defined result in reals. The model fixes one, and a degenerate input is a rejected input, not a modelled error:
  - normalising the zero vector gives the zero vector;
  - a zero leading coefficient in `solve_quadratic` is a miss;
  - a one-pixel-wide window takes a zero step;
  - the reciprocal of 0 is 0;
  - a ray parallel to a triangle's plane but off it has an infinite parameter in the source; the model reports -1, stores -1 in `out_t_max` and computes no weights;
  - a zero-area triangle divides by zero for its weights in the source; the model reports -1, stores -1 and computes no weights.
- Surfaces.Triangle.Hit and Surfaces.Triangle.Probe: for a parallel ray off the plane and for a zero-area triangle the source overwrites the cached weights with infinite or NaN values; the model keeps the old cache, so a later normal or texture lookup after such a call is not modelled.
- Tracer.GetColor, Tracer.ReflectRay and Tracer.RefractRay take a `fuel` bound on their mutual recursion. Infinitely deep nesting, which the source bounds only through the depth counters, is not modelled.
- Tracer.NudgedTrace: the nudge-and-retry loops of `reflect_ray` and `refract_ray` stop after `NudgeLimit` retries; the source has no bound.
- Tracer.GetColor states the upper clamp and the ambient-only case, not the full Phong sum, because its reflection and refraction terms rewrite the triangle caches it reads.
- Tracer.Render and Tracer.RenderPixel state the colour of a hit pixel only in the ambient-only case; otherwise they state that it is clamped.
- Tracer.GetColor and Tracer.GetColorHard test `IsSpotlight` where the source tests `w == -1`; the source as written is `Lights.TagMistakesLight` (see Findings).
- Parser.ReadShape and Parser.Parse use the corrected `Parser.ReadFace`, so they reject the `f` lines with out-of-pool indices that the source accepts; the source's check is `Parser.ReadFaceAsWritten` (see Findings).
- Tracer.ReflectRay and Tracer.RefractRay state their bounce bounds, why they stopped and their black cases, not the colour they accumulate. The colour is computed as the source does, adding reflection and refraction once per light, but the contract does not state it.
- Tracer.Render does not state which value each triangle's cache holds after a pixel is shaded.
- Images.ViewWindow: the steps `dh` and `dv` are derived from the stored corners and pixel counts (`Dh`, `Dv`) rather than stored as members; the values are the same, since nothing changes them after construction.
- Images.PerspectiveRays requires the grid point to differ from the eye; at the eye the direction is the zero vector.
- Surface identity (`Surface*` comparison against the shaded surface) is modelled as the surface's index in the scene.
- `Image`'s constructor only reserves the buffer and then writes into it. The model allocates width·height pixels.
- `randn` without a `return`, a dangling exception `what()` message, the `malloc` in `remove_ext` that is never freed, and NUL characters inside names are not modelled.
- RT1's surface `hit` functions are parameters of the flat render pass (`FlatSurface.hit`).
- The parser builds records of the scene, not the `Surface` and `LightSource` objects. The triangle object is built from such a record by its own constructor.

## Findings

| source | as written | input that shows it | evidently intended | confidence | as-written member | corrected member |
|---|---|---|---|---|---|---|
| RT3/utils.cpp:168-169 | an `f` line is checked only for texture and normal indices no larger than the pools; vertex indices are never checked, and a later corner may omit the texture index the first corner has | `f 1 2 3` before any `v` line; `f 1/1 2 3/1` with one texture coordinate read | every index the triangle constructor follows lies inside the pools | not executed | Parser.ReadFaceAsWritten | Parser.ReadFace |
| RT4/main.cpp:285-289 | a light is treated as a spotlight when its `w` is -1, and the `Light*` is cast to `Spotlight*` | a `light` line whose fourth field is -1 | only `spotlight` lines are spotlights | not executed | Lights.TagMistakesLight | Lights.SpotlightTestIsExact |
