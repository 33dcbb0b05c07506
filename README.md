# Interaction logic of a react-three-fiber 3D portfolio, in Dafny

The portfolio is a navigable 3D room. The visitor flies a first-person camera with the
keyboard and clicks on floating panels: gallery images, a video, certificates and papers,
and link buttons. This project models the interaction logic of the components under
`src/components/`, apart from the rendering, and proves properties of it:

- the selection registry (`SelectionContext.jsx`): one `selectedId` cell that a repeat
  `select` toggles off;
- the click dispatcher (`Raycasting.jsx`). It tracks the cursor, maps a click to
  normalised device coordinates, takes the nearest hit, climbs the scene graph to the
  direct child of the clickables group, and then either selects that object's id or warns;
- the camera rig (`FloatingCameraControls.jsx`): a key-state dictionary, and a per-frame
  move along the view direction, the right vector and the vertical, with the height
  clamped to [0.1, 8.0];
- the three gallery panels (`FloatingImage.jsx`, `FloatingVideo.jsx`, `FloatingPaper.jsx`).
  Each has an id derived from its url, a caption lookup, and an `expanded` state that
  follows the selection. Each frame it eases its position and scale. The video syncs
  play and pause with the selection. The paper has an open/confirm flow;
- the link button (`ActionButton.jsx`): a hover/press machine, eased scale and glow, and
  `window.open` on release;
- the HUD overlays: the crosshair (`CrosshairOverlay.jsx`), the help panel
  (`ControlsHUD.jsx`) and the welcome screen (`LoadingScreen.jsx`).

Where a component updates state in place (a `useRef`, React state set from a handler, a
three.js transform written in `useFrame`), the model is a class. Its fields are that state
and its methods are the handlers and the frame callback. Each method is specified by pure
functions: `AfterSelect`, `AfterKeyDown`, `StepByStep`, `Step`/`StepVec`, `Sync`,
`Opened`, `Apply`, `Progress`. The lemmas are stated about those functions.

Numbers are exact reals, so lerp steps and camera moves have no rounding. Strings are
`seq<char>`. Some inputs come from outside the code: the raycaster, the camera's view
direction, the sine "bob" offsets, whether the document holds pointer lock, the window
size and frame timestamps. Each of these is a parameter of the operation that reads it.
`window.open` is modelled by `Host.Browser`, which records the urls opened, in order.

Files: `wrappers.dfy` (Option, Result), `vectors.dfy`, `smoothing.dfy` (the lerp step
and its convergence), `text.dfy` (truthiness, `toLowerCase`), `host.dfy`, `selection.dfy`,
`raycasting.dfy`, `camera.dfy`, `panels.dfy` (what the three gallery panels share:
`deriveId` and the caption lookup), `floating_image.dfy`, `floating_video.dfy`,
`floating_paper.dfy`, `action_button.dfy`, `crosshair.dfy`, `controls_hud.dfy`,
`loading_screen.dfy`.

Some behaviour of the code is easy to misread; the model follows the code:

- clicks resolve their target by walking the parent chain, not by a collider-to-id map;
- `ActionButton` opens its link on pointer-up at once, with no confirmation step;
- pointer-down presses a button even when it is not hovered;
- only the paper panel has a confirm flow, and it starts from its open button, not from
  a press and release;
- `deriveId` is total, but it can return the empty string: a file name that starts with a
  dot has an empty base name (`Panels.HiddenFileGivesEmptyId`). Only an empty file name
  falls back to the url.

## Model

| member | source | states |
|---|---|---|
| Selection.Registry.constructor | src/components/SelectionContext.jsx:7 | nothing is selected at first |
| Selection.AfterSelect | src/components/SelectionContext.jsx:10 | the selection becomes empty exactly when the id was already selected, and is otherwise that id |
| Selection.Registry.Select | src/components/SelectionContext.jsx:9-11 | the new selection is `AfterSelect` of the old one |
| Selection.ToggleLaw | src/components/SelectionContext.jsx:10 | selecting the same id twice clears the selection, unless that id was selected to begin with |
| Selection.ReplacementLaw | src/components/SelectionContext.jsx:10 | selecting b after a (a ≠ b) leaves b selected and a not |
| Selection.AtMostOneSelected | src/components/SelectionContext.jsx:10 | after any sequence of selects, no two different ids are both selected |
| Selection.SelectAllLast | src/components/SelectionContext.jsx:10 | after a sequence of selects, either nothing or the last id named is selected |
| Selection.RepeatedSelect | src/components/SelectionContext.jsx:10 | clicking one entity n times from another selection selects it iff n is odd, and clears the selection for even n > 0 |
| Selection.Registry.Deselect | src/components/SelectionContext.jsx:13-15 | afterwards nothing is selected, whatever the state before |
| Selection.Registry.IsSelected | src/components/SelectionContext.jsx:17-19 | a query that reads the state and is true exactly when the id is the selected one |
| Selection.UseSelection | src/components/SelectionContext.jsx:29-34 | outside a provider the hook fails with the provider error; inside one it returns the provider's registry |
| Raycasting.ClickHandler.constructor | src/components/Raycasting.jsx:9 | the tracked cursor starts at the window centre |
| Raycasting.ClickHandler.OnMouseMove | src/components/Raycasting.jsx:12-16 | moves under pointer lock leave the cursor unchanged; otherwise the cursor becomes the event's client position |
| Raycasting.ClickNdc | src/components/Raycasting.jsx:22-30 | under pointer lock the click pointer is (0, 0), whatever the cursor |
| Raycasting.NdcRoundTrip | src/components/Raycasting.jsx:25-30 | the unlocked mapping is invertible: mapping the NDC back to the canvas gives the cursor |
| Raycasting.NdcInRange | src/components/Raycasting.jsx:25-30 | a cursor inside the canvas rectangle gives NDC in [-1, 1]²; the top-left corner maps to (-1, 1) and the bottom-right corner to (1, -1) |
| Raycasting.FirstHitIsNearest | src/components/Raycasting.jsx:40-42 | in the distance-sorted hit list, hits[0] is no farther than any other hit |
| Raycasting.DecidesOnNearest | src/components/Raycasting.jsx:40-42 | on a distance-sorted hit list, a click that reaches an object decides on a hit that no reported hit is closer than |
| Raycasting.AncestorIsEarlier | src/components/Raycasting.jsx:46-48 | every object on a parent chain comes before the start object in the scene's numbering, so the walk terminates |
| Raycasting.ClickTarget | src/components/Raycasting.jsx:45-48 | the walk ends on an ancestor-or-self of the hit object whose parent is the clickables group or that has no parent |
| Raycasting.ClickTargetIsLowest | src/components/Raycasting.jsx:45-48 | every other such stopping point on the chain lies above the one the walk ends on |
| Raycasting.ClickTargetOfChild | src/components/Raycasting.jsx:45-48 | a hit anywhere inside a direct child of the group resolves to that child |
| Raycasting.ResolveTarget | src/components/Raycasting.jsx:45-48 | the `while` loop computes `ClickTarget` |
| Raycasting.Resolve | src/components/Raycasting.jsx:51-58 | a resolved target either selects a non-empty id or only warns |
| Raycasting.Decide | src/components/Raycasting.jsx:36-58 | no group: nothing happens; no hits: nothing happens; otherwise the decision depends on hits[0] alone |
| Raycasting.OnlyFirstHitCounts | src/components/Raycasting.jsx:41-42 | replacing every hit after the first leaves the decision unchanged |
| Raycasting.SelectedIdOrigin | src/components/Raycasting.jsx:51-55 | a selected id is the userData id of the walk's stopping point above the hit |
| Raycasting.HitOnEntity | src/components/Raycasting.jsx:45-58 | a hit inside entity e selects e's id when it is truthy, and otherwise only warns |
| Raycasting.ClickHandler.OnClick | src/components/Raycasting.jsx:18-60 | the click does what `Decide` says for the raycaster's hits at the click pointer; when it reaches an object, that is the object of the nearest hit; the registry changes only by one `select` of the selected id |
| Text.ToLower | src/components/FloatingCameraControls.jsx:10 | the lower-cased key has the same length and lower-cases each character |
| Text.ToLowerIdempotent | src/components/FloatingCameraControls.jsx:10-11 | lower-casing twice is lower-casing once |
| CameraControls.AfterKeyDown | src/components/FloatingCameraControls.jsx:10 | the lower-cased key is held afterwards, and no other key changes |
| CameraControls.AfterKeyUp | src/components/FloatingCameraControls.jsx:11 | the lower-cased key is released afterwards, and no other key changes |
| CameraControls.ActionsOf | src/components/FloatingCameraControls.jsx:29-49 | each of the six actions is on when either of its two keys is held; `EachActionOnce` shows a second key of a held action adds nothing |
| CameraControls.FloatingCameraControls.constructor | src/components/FloatingCameraControls.jsx:5-7 | the key map starts empty |
| CameraControls.FloatingCameraControls.HandleKeyDown | src/components/FloatingCameraControls.jsx:10 | the key map becomes `AfterKeyDown` of the old map, and the camera does not move |
| CameraControls.FloatingCameraControls.HandleKeyUp | src/components/FloatingCameraControls.jsx:11 | the key map becomes `AfterKeyUp` of the old map, and the camera does not move |
| CameraControls.CaseInsensitive | src/components/FloatingCameraControls.jsx:10-11 | a key and its lower-cased form update the map alike; pressing "W" starts the forward action |
| CameraControls.PressThenRelease | src/components/FloatingCameraControls.jsx:10-11 | a keydown then a keyup of one key leaves that key released and the others as they were |
| CameraControls.FloatingCameraControls.Frame | src/components/FloatingCameraControls.jsx:20-55 | the camera ends where the six conditional moves and the two guards take it, with right = direction × up; its height is within [0.1, 8.0]; the keys are unchanged |
| CameraControls.StepByStep | src/components/FloatingCameraControls.jsx:28-55 | the frame as the source performs it: six conditional moves in order, then the two height guards; `StepByStepIsNext` gives its closed form |
| CameraControls.Displacement | src/components/FloatingCameraControls.jsx:28-51 | the net move of one frame: along the view direction, along direction × up, and along the world vertical, each by ±speed or nothing |
| CameraControls.NextPosition | src/components/FloatingCameraControls.jsx:28-55 | the position after one displacement and the height clamp; `YBounded` and `IdleUnchanged` are proved about it |
| CameraControls.StepByStepIsNext | src/components/FloatingCameraControls.jsx:28-55 | the sequential moves of a frame add up to one displacement, followed by the clamp |
| CameraControls.PairSteps | src/components/FloatingCameraControls.jsx:29-42 | two opposite conditional moves along one vector, in either order, net speed·v, −speed·v or nothing |
| CameraControls.Along | src/components/FloatingCameraControls.jsx:29-34 | a pair of opposite actions that are both held, or both released, moves nothing |
| CameraControls.ForwardOrBack | src/components/FloatingCameraControls.jsx:29-34 | forward alone moves by speed·direction and back alone by −speed·direction |
| CameraControls.RightOrLeft | src/components/FloatingCameraControls.jsx:37-42 | right alone moves by speed·right and left alone by −speed·right |
| CameraControls.VerticalOnlyY | src/components/FloatingCameraControls.jsx:45-51 | up and down change only y, by +speed and −speed |
| CameraControls.OppositesCancel | src/components/FloatingCameraControls.jsx:29-51 | holding both actions of an opposite pair moves the camera as if neither were held |
| CameraControls.EachActionOnce | src/components/FloatingCameraControls.jsx:29-49 | holding the second key of an action whose first key is held changes nothing |
| CameraControls.ClampY | src/components/FloatingCameraControls.jsx:54-55 | the clamped height is in [0.1, 8.0]; it is unchanged inside the band and set to the nearer bound outside it |
| CameraControls.YBounded | src/components/FloatingCameraControls.jsx:54-55 | after every frame the height is within [0.1, 8.0] |
| CameraControls.IdleUnchanged | src/components/FloatingCameraControls.jsx:28-55 | with no action held and the height inside the band, the camera stays where it is |
| Panels.Split | src/components/FloatingImage.jsx:38 | `split` returns at least one piece, so `pop()` and `[0]` always find one |
| Panels.FileName | src/components/FloatingImage.jsx:38 | `url.split("/").pop()`, the last piece of the split; `FileNameIsLastSegment` characterises it |
| Panels.BaseName | src/components/FloatingImage.jsx:39 | `fname.split(".")[0]`, the first piece of the split; `BaseNameIsFirstSegment` characterises it |
| Panels.DeriveId | src/components/FloatingImage.jsx:35-43 | a truthy `id` wins; otherwise the base name of a non-empty file name, else the url; `DeriveIdExample`, `TrailingSlashKeepsUrl` and `HiddenFileGivesEmptyId` are proved about it |
| Panels.SplitPiecesFree | src/components/FloatingImage.jsx:38 | no piece of a split contains the separator |
| Panels.SplitJoins | src/components/FloatingImage.jsx:38 | joining the pieces of a split with the separator gives back the string |
| Panels.SplitUnique | src/components/FloatingImage.jsx:38 | any separator-free pieces that join to the string are its split |
| Panels.FirstPiece | src/components/FloatingImage.jsx:39 | the first piece of a split is the string up to the first separator |
| Panels.LastPiece | src/components/FloatingImage.jsx:38 | the last piece of a split is the string after the last separator |
| Panels.FileNameIsLastSegment | src/components/FloatingImage.jsx:38 | `url.split("/").pop()` is the slash-free suffix of the url after its last `/` |
| Panels.BaseNameIsFirstSegment | src/components/FloatingImage.jsx:39 | `fname.split(".")[0]` is the dot-free prefix of the file name before its first `.` |
| Panels.FileNameAfterSlash | src/components/FloatingImage.jsx:38 | the file name of `dir + "/" + f`, for a slash-free `f`, is `f` |
| Panels.BaseNameBeforeDot | src/components/FloatingImage.jsx:39 | the base name of `b + "." + ext`, for a dot-free `b`, is `b` |
| Panels.TrailingSlashKeepsUrl | src/components/FloatingImage.jsx:39 | with no id, a url ending in `/` derives the url itself |
| Panels.GalleryFileName | src/components/FloatingImage.jsx:38 | the file name of "/media/images/Butterfly.jpg" is "Butterfly.jpg" |
| Panels.GalleryBaseName | src/components/FloatingImage.jsx:39 | the base name of "Butterfly.jpg" is "Butterfly" |
| Panels.DeriveIdExample | src/components/FloatingImage.jsx:35-43 | a truthy id wins ("lab"); a missing or empty id derives "Butterfly" from "/media/images/Butterfly.jpg" |
| Panels.HiddenFileGivesEmptyId | src/components/FloatingImage.jsx:39 | for every url whose file name is non-empty and starts with a dot, the id derived without an `id` is the empty string |
| Panels.ContentKey | src/components/FloatingImage.jsx:45 | the caption key `id || deriveId()` is always the panel's own id |
| Panels.LookupContent | src/components/FloatingImage.jsx:46 | the caption is the table entry for the key if there is one, else the default entry |
| Panels.CaptionFound | src/components/FloatingImage.jsx:44-46 | a panel always gets a caption from the table, and its own entry when the table has its id |
| Smoothing.Step | src/components/FloatingImage.jsx:82 | the new value lies between the old value and the target, and its distance to the target is (1 − f) times the old distance |
| Smoothing.StepContracts | src/components/FloatingImage.jsx:82 | each step shrinks the distance to the target by the factor 1 − f, strictly unless the value is already at the target |
| Smoothing.FallbackStep | src/components/FloatingImage.jsx:81-82 | a scale of exactly 0 is replaced by the fallback before the step; any other scale steps as it is |
| Smoothing.FallbackStepPositive | src/components/FloatingImage.jsx:81-82 | a positive scale heading to a positive target stays positive, so the fallback is never taken again |
| Smoothing.IterateDistance | src/components/FloatingImage.jsx:78-82 | after n frames with a fixed target, the distance is (1 − f)ⁿ times the initial one |
| Smoothing.IterateAbs | src/components/FloatingImage.jsx:78-82 | after n frames with a fixed target, the unsigned distance is (1 − f)ⁿ times the initial one |
| Smoothing.FramesEnough | src/components/FloatingImage.jsx:78-82 | for every ε > 0 there is a frame count after which (1 − f)ⁿ times the initial distance is below ε |
| Smoothing.PowBound | src/components/FloatingImage.jsx:82 | (1 − f)ⁿ·(1 + n·f) ≤ 1, the bound behind convergence |
| Smoothing.Converges | src/components/FloatingImage.jsx:78-82 | with a fixed target, the value comes within any ε > 0 of it after finitely many frames |
| Smoothing.StepVec | src/components/FloatingImage.jsx:78 | each component of the lerped position lies between the old and the target component; a position already at the target stays there |
| FloatingImage.ImagePanel.constructor | src/components/FloatingImage.jsx:32-46 | the panel's id is `deriveId`, its caption is the lookup under its id, and it starts at its base position at scale 1 |
| FloatingImage.ImagePanel.Expanded | src/components/FloatingImage.jsx:49 | expanded exactly when the registry's selection is the panel's id |
| FloatingImage.ImagePanel.HandleClick | src/components/FloatingImage.jsx:59-62 | a click is one `select` of the panel's id |
| FloatingImage.ScaleTarget | src/components/FloatingImage.jsx:80 | the scale heads for 1.2 while selected and 1.0 otherwise |
| FloatingImage.TargetPosition | src/components/FloatingImage.jsx:69-76 | the bobbing base position, pulled 0.5 back along the view direction while selected |
| FloatingImage.ScaleStaysInBand | src/components/FloatingImage.jsx:80-82 | a scale in [1.0, 1.2] stays in it, whichever way the selection goes |
| FloatingImage.ScaleApproachesTarget | src/components/FloatingImage.jsx:80-82 | each frame multiplies the distance to 1.2 or 1.0 by 0.88, strictly while off target, with 0 first read as 1 |
| FloatingImage.ImagePanel.Frame | src/components/FloatingImage.jsx:64-82 | the position lerps by 0.12 toward the bobbing base, pulled 0.5 back along the view direction while selected; the scale takes the fallback step toward 1.2 or 1.0 and stays in its band |
| FloatingVideo.VideoPanel.constructor | src/components/FloatingVideo.jsx:25-38 | after the load effect the video is muted and paused, not playing and not ready |
| FloatingVideo.VideoPanel.OnCanPlay | src/components/FloatingVideo.jsx:40-41 | `canplay` marks the video ready and changes no playback flag |
| FloatingVideo.Sync | src/components/FloatingVideo.jsx:92-103 | before the video is ready nothing changes; once ready, selected means unmuted, running and playing, and not selected means muted, paused and not playing |
| FloatingVideo.VideoPanel.SyncPlayback | src/components/FloatingVideo.jsx:92-103 | the playback state becomes `Sync` of the old state, readiness and selection |
| FloatingVideo.SyncKeepsConsistent | src/components/FloatingVideo.jsx:29-103 | the element is audible and running exactly when `playing` is set: after loading, and after every sync |
| FloatingVideo.SyncIdempotent | src/components/FloatingVideo.jsx:92-103 | running the effect again with the same inputs changes nothing |
| FloatingVideo.PlayingIffSelected | src/components/FloatingVideo.jsx:92-103 | once ready, the video is playing, so its info popup (line 177) shows, exactly when it is selected |
| FloatingVideo.VideoPanel.InfoShown | src/components/FloatingVideo.jsx:177 | the info popup is rendered exactly while the video is playing |
| FloatingVideo.VideoPanel.Expanded | src/components/FloatingVideo.jsx:82 | expanded exactly when the registry's selection is the panel's id |
| FloatingVideo.VideoPanel.HandleClick | src/components/FloatingVideo.jsx:105-108 | a click is one `select` of the panel's id |
| FloatingVideo.ScaleTarget | src/components/FloatingVideo.jsx:119 | the scale heads for 1.3 while playing and 1.0 otherwise |
| FloatingVideo.ScaleStaysInBand | src/components/FloatingVideo.jsx:119-121 | a scale in [1.0, 1.3] stays in it |
| FloatingVideo.ZeroScaleRestarts | src/components/FloatingVideo.jsx:120 | a zero scale is read as 0.5 and steps to strictly between 0.5 and the target |
| FloatingVideo.VideoPanel.Frame | src/components/FloatingVideo.jsx:110-121 | the position lerps by 0.12 toward the bobbing base, with no pull toward the camera; the scale heads to 1.3 while playing, else 1.0, with fallback 0.5 |
| FloatingPaper.OpenTarget | src/components/FloatingPaper.jsx:69-77 | "Yes" targets only a truthy url |
| FloatingPaper.OpenTargetCases | src/components/FloatingPaper.jsx:72-76 | the web link wins; without one the PDF is opened; without either, nothing is |
| FloatingPaper.Opened | src/components/FloatingPaper.jsx:72-76 | at most one url is opened, the target itself |
| FloatingPaper.OpenLabel | src/components/FloatingPaper.jsx:220 | the open button reads "Verify" with a truthy web link and "Open Paper" otherwise |
| FloatingPaper.PromptText | src/components/FloatingPaper.jsx:239 | the prompt shows `webUrl || pdfUrl`, with `null` printed as "null" |
| FloatingPaper.LabelNamesTarget | src/components/FloatingPaper.jsx:220 | the button reads "Verify" exactly when "Yes" would open the web link |
| FloatingPaper.PromptNamesTarget | src/components/FloatingPaper.jsx:239 | whenever "Yes" opens a url, the prompt names that url |
| FloatingPaper.NoLinkPrompt | src/components/FloatingPaper.jsx:239 | a paper with neither link prompts about "null" and "Yes" opens nothing |
| FloatingPaper.OneControlAtATime | src/components/FloatingPaper.jsx:166-226 | the open button and the prompt never show together, and a selected paper shows one of them |
| FloatingPaper.ScaleStaysInBand | src/components/FloatingPaper.jsx:100-102 | a scale in [1.0, 1.2] stays in it |
| FloatingPaper.ScaleTarget | src/components/FloatingPaper.jsx:100 | the scale heads for 1.2 while selected and 1.0 otherwise |
| FloatingPaper.TargetPosition | src/components/FloatingPaper.jsx:89-96 | the bobbing base position, pulled 0.8 back along the view direction while selected |
| FloatingPaper.PaperPanel.constructor | src/components/FloatingPaper.jsx:34-50 | the id is `deriveId`, the caption is looked up under it, and `confirming` starts false |
| FloatingPaper.PaperPanel.Expanded | src/components/FloatingPaper.jsx:47 | expanded exactly when the registry's selection is the panel's id |
| FloatingPaper.PaperPanel.HandleClick | src/components/FloatingPaper.jsx:59-62 | a click is one `select`, and a selection change leaves `confirming` as it was |
| FloatingPaper.PaperPanel.HandleOpenClick | src/components/FloatingPaper.jsx:64-67 | the open button raises the prompt |
| FloatingPaper.PaperPanel.HandleConfirmYes | src/components/FloatingPaper.jsx:69-77 | the prompt closes, and the browser log grows by exactly `Opened(OpenTarget(webUrl, pdfUrl))` |
| FloatingPaper.PaperPanel.HandleConfirmNo | src/components/FloatingPaper.jsx:79-82 | the prompt closes and nothing else changes |
| FloatingPaper.PaperPanel.Frame | src/components/FloatingPaper.jsx:84-102 | the position lerps toward the bobbing base, pulled 0.8 back along the view direction while selected; the scale stays in [1.0, 1.2]; `confirming` is unchanged |
| Host.Browser.Open | src/components/ActionButton.jsx:69 | each `window.open` appends its url to the log |
| ActionButton.ScalePriority | src/components/ActionButton.jsx:35 | pressed gives 0.9 whether hovered or not; hovered alone gives 1.08; neither gives 1; the target is always in [0.9, 1.08] |
| ActionButton.TargetScale | src/components/ActionButton.jsx:35 | the button's scale target: 0.9 pressed, else 1.08 hovered, else 1 |
| ActionButton.TargetGlow | src/components/ActionButton.jsx:57 | the glow target: 0.6 while hovered, else 0 |
| ActionButton.ScaleStaysInBand | src/components/ActionButton.jsx:35-39 | a scale with every component in [0.9, 1.08] stays there |
| ActionButton.GlowStaysInBand | src/components/ActionButton.jsx:55-59 | the emissive intensity stays in [0, 0.6] |
| ActionButton.StepsTowardTargets | src/components/ActionButton.jsx:35-59 | each frame cuts the scale's distance to its target by 0.84 and the glow's by 0.82, strictly while off target |
| ActionButton.Button.constructor | src/components/ActionButton.jsx:7-17 | neither hovered nor pressed, at scale 1 with no glow |
| ActionButton.Button.PointerOver | src/components/ActionButton.jsx:63 | the button becomes hovered |
| ActionButton.Button.PointerOut | src/components/ActionButton.jsx:64 | leaving clears both hovered and pressed, so the scale heads back to 1 |
| ActionButton.Button.PointerDown | src/components/ActionButton.jsx:65 | any press, hovered or not, sets pressed and the 0.9 target |
| ActionButton.Button.PointerUp | src/components/ActionButton.jsx:66-70 | release clears pressed and opens the link exactly once, with no confirmation |
| ActionButton.Button.Frame | src/components/ActionButton.jsx:26-60 | the height is base + bob; the scale lerps by 0.16 toward the target; the glow lerps by 0.18 toward 0.6 or 0; both stay in their bands |
| Crosshair.Apply | src/components/CrosshairOverlay.jsx:23-42 | only a lock change writes `locked`, and it writes the document's lock state |
| Crosshair.Run | src/components/CrosshairOverlay.jsx:23-42 | the handlers applied to a series of events in order; `LockedMovesIgnored` and `LockedStaysCentred` are about it |
| Crosshair.HandlerCases | src/components/CrosshairOverlay.jsx:23-42 | locking centres the cursor; unlocking keeps it; a move is ignored while locked and recorded while unlocked; a resize recentres only while locked |
| Crosshair.LockedMovesIgnored | src/components/CrosshairOverlay.jsx:32-37 | any series of mouse moves under pointer lock leaves the state unchanged |
| Crosshair.LockedStaysCentred | src/components/CrosshairOverlay.jsx:32-70 | once locked, the crosshair is drawn at 50%/50% through any moves and resizes until the next lock change |
| Crosshair.Rendered | src/components/CrosshairOverlay.jsx:69-70 | `left`/`top` are 50% while locked and the tracked pixels otherwise |
| Crosshair.RenderedPosition | src/components/CrosshairOverlay.jsx:69-70 | after locking the crosshair is drawn at 50%/50%, and after an unlocked move at that cursor's pixels |
| Crosshair.NextTick | src/components/CrosshairOverlay.jsx:61 | the counter stays below 1000000, counts up by one, and wraps from 999999 to 0 |
| Crosshair.TickCount | src/components/CrosshairOverlay.jsx:57-66 | after n frames from 0 the counter is n mod 1000000 |
| Crosshair.Overlay.constructor | src/components/CrosshairOverlay.jsx:18-19 | `locked` starts as the document's lock state, with the cursor at the window centre |
| Crosshair.Overlay.OnPointerLockChange | src/components/CrosshairOverlay.jsx:23-30 | the state becomes `Apply` of a lock change |
| Crosshair.Overlay.OnMouseMove | src/components/CrosshairOverlay.jsx:32-37 | the state becomes `Apply` of a mouse move |
| Crosshair.Overlay.OnResize | src/components/CrosshairOverlay.jsx:39-42 | the state becomes `Apply` of a resize |
| Crosshair.Overlay.Tick | src/components/CrosshairOverlay.jsx:61 | the counter advances by `NextTick` and stays below 1000000 |
| Text.LowersToH | src/components/ControlsHUD.jsx:8 | exactly the keys "h" and "H" lower-case to "h" |
| ControlsHud.AfterKey | src/components/ControlsHUD.jsx:7-11 | the visibility flips exactly on "h" or "H" and is otherwise unchanged |
| ControlsHud.TwoPressesRestore | src/components/ControlsHUD.jsx:9 | two presses of a key, or "h" then "H", restore the prior visibility |
| ControlsHud.Opacity | src/components/ControlsHUD.jsx:54 | opacity 1 while visible, else 0 |
| ControlsHud.PointerEventsOf | src/components/ControlsHUD.jsx:57 | pointer events `auto` while visible, else `none` |
| ControlsHud.StyleFollowsVisibility | src/components/ControlsHUD.jsx:54-57 | the opacity is 1 and pointer events are on exactly while the panel is visible |
| ControlsHud.Hud.constructor | src/components/ControlsHUD.jsx:4 | the help panel starts hidden |
| ControlsHud.Hud.HandleKeyPress | src/components/ControlsHUD.jsx:7-11 | the visibility becomes `AfterKey` of the old one |
| LoadingScreen.ProgressBounds | src/components/LoadingScreen.jsx:20 | the progress is never above 100; it is 100 exactly once the duration has elapsed; it is not negative for non-negative elapsed time |
| LoadingScreen.Progress | src/components/LoadingScreen.jsx:19-20 | `Math.min(100, dt / duration · 100)`, for a positive duration; `ProgressBounds` and `ProgressMonotone` are proved about it |
| LoadingScreen.ProgressMonotone | src/components/LoadingScreen.jsx:19-20 | the progress never decreases as time passes |
| LoadingScreen.ReschedulesUntilDone | src/components/LoadingScreen.jsx:22 | another frame is requested exactly while the elapsed time is below the duration |
| LoadingScreen.AssetsLoaded | src/components/LoadingScreen.jsx:30 | every counted asset has loaded, or there are none |
| LoadingScreen.TimerDone | src/components/LoadingScreen.jsx:31 | the simulated progress has reached 99.999 |
| LoadingScreen.Ready | src/components/LoadingScreen.jsx:32 | the controls show only when the assets are loaded and the timer is done |
| LoadingScreen.AssetsLoadedIff | src/components/LoadingScreen.jsx:30 | with non-negative counts, `total === 0 ? true : loaded >= total` is `loaded >= total` |
| LoadingScreen.Round | src/components/LoadingScreen.jsx:33 | `Math.round` gives the integer within half a unit, rounding halves up |
| LoadingScreen.DisplayPctBounds | src/components/LoadingScreen.jsx:31-33 | the shown percentage is in [0, 100], and is 100 once the controls are ready |
| LoadingScreen.ReadyAfterDuration | src/components/LoadingScreen.jsx:30-32 | once the duration has elapsed and the assets are in, the controls and the Enter button show |
| LoadingScreen.Overlay.constructor | src/components/LoadingScreen.jsx:5-24 | on mount the overlay is visible, the progress is 0 and a frame is requested |
| LoadingScreen.Overlay.Tick | src/components/LoadingScreen.jsx:18-23 | the progress becomes `Progress(now − start)`; another frame is requested exactly while it is below 100; the overlay stays unhidden unless entered |
| LoadingScreen.Overlay.SetEntered | src/components/LoadingScreen.jsx:12-14 | an `entered` that becomes false makes the overlay visible again |
| LoadingScreen.Overlay.OnAnimationEnd | src/components/LoadingScreen.jsx:35-37 | animation end hides the overlay only once it has been entered; the timer start, the progress, the pending frame and `entered` are unchanged |

## Left out

- Rendering: meshes, materials, textures, the Html captions, Sparkles, CSS and styles.
  Only the style values that are decided by state are modelled: the crosshair position,
  and the HUD opacity and pointer events.
- Trigonometry and rotation. The sine "bob" offsets, the yaw oscillation, quaternion
  `slerp` and the random phase offsets are left out; the bob enters each `Frame` as the
  parameter `bob`.
- `camera.getWorldDirection` and `camera.up` are inputs to the camera `Frame`. The view
  direction the panels move along is an input to their `Frame` as well.
- The ray/mesh intersection. It is the parameter `intersect` of `OnClick`, an oracle
  that `OnClick` requires to return hits nearest first, with valid object indices. The scene graph is given as
  a numbering in which every parent precedes its children.
- Rendering-library events: the meshes' own `onClick` props (through which the panels
  also call `select`), `stopPropagation`, and the order in which the library and the DOM
  click listener run. `HandleClick` models one such call on its own.
- The video element lifecycle: `load`, `VideoTexture` creation and disposal, `loop`,
  `playsInline`. A `play()` whose promise rejects is treated as running.
- `addEventListener`/`removeEventListener`, effect cleanup, `requestAnimationFrame`
  scheduling and `performance.now`. Time stamps are parameters, and the re-render
  counter's frames are calls to `Tick`.
- `console.log` and `console.warn`. The warning is the `WarnNoId` outcome.
- Text.ToLower: lower-cases ASCII letters only; JavaScript's `toLowerCase` also maps other
  Unicode letters.
- Panels.DeriveId: the `try`/`catch` that falls back to the url is left out, because in
  this model the url is always a string and `split` cannot throw.
- Raycasting.ClickNdc: requires a canvas of positive width and height when the pointer is
  not locked. A zero-sized canvas would give infinite or NaN coordinates in JavaScript;
  those are not modelled.
- LoadingScreen.Progress: requires a positive duration (the default is 500 ms). A change
  of the `duration` prop, which restarts the loop, is not modelled.
- LoadingScreen.Overlay.OnAnimationEnd: which DOM animation or transition event reaches the
  handler is not modelled. The method stands for the event, whichever one fires.
- `ImageContents.jsx` is not part of this model: the caption table is an abstract map
  that has a `default` entry.
- CameraControls.FloatingCameraControls.Frame: reads the key map once per frame. No
  handler runs during a frame callback, so this matches the six separate reads. The
  contract states the frame as the source performs it (`StepByStep`). The closed form of
  one displacement followed by the clamp is the separate lemma `StepByStepIsNext`.
- The configured camera speed 0.2 of the scene is the constant `SceneSpeed`; the speed is
  a constructor parameter.
- The component composition (`App.jsx`, `Experience.jsx`), the unused components, and
  `CustomPointerControls.jsx` are not part of this model.
