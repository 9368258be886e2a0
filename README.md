# Monitoring dashboard — verified model of its decision and data logic

The dashboard server checks whether the monitored web site is reachable. It runs `curl -I` and, when curl fails, `ping`. From those outputs it derives an UP / PARTIAL / DOWN verdict and an "HTTPS active" flag. It also projects the container runtime's listing into the records it pushes to the browser, and falls back to a zeroed host-statistics record when the host cannot be read.

The browser page does three things with what it receives:

- it formats uptimes and memory sizes;
- it keeps a rolling window of CPU and memory points for its chart;
- it derives the container panel: the running and total counters, a status class and port tags per container, and a rebuilt container selector that keeps the previous selection.

This project models that logic in Dafny and proves what it promises.

Modules:

- `Text` (text.dfy): JavaScript's white space, decimal digits, `parseInt` on a run of digits and its inverse, `includes`, and `trim`.
- `StatusLine` (status_line.dfy): a scanner for the status-line pattern `HTTP/<digit>[.<digit>]<white space>+<digits>`, matched case-insensitively. It returns the code of the leftmost match. It is proved equal to a declarative description of the regular-expression match.
- `SiteCheck` (site_check.dfy): `checkWebsiteStatus` and `checkHttpsStatus` as functions over what each probe's callback receives: an error flag and the captured standard output.
- `JsValues` (js_values.dfy): loosely typed JSON field values and their truthiness.
- `ServerData` (server_data.dfy): the `getSystemStats` fallback and the `getContainers` projection.
- `Formatting` (formatting.dfy): `formatUptime`, and the unit-selection loop of `formatMemorySize` as a method with a loop.
- `Charts` (charts.dfy): `updateCharts` as a class holding the three arrays of points and a method that updates them in place.
- `ContainerList` (container_list.dfy): the values `updateContainersList` computes before rendering them.

Points where the code does something other than one might expect, which the model reproduces as written:

- The ping probe is consulted only when curl itself reports an error (src/server.js:98-110). Empty or white-space-only curl output without an error is DOWN, and ping plays no part.
- HTTPS is detected from the security headers only when the output also contains `HTTP/`, and both tests are case-sensitive.
- A parsed status code of 0 is falsy in JavaScript. It therefore falls through to the "non-empty output" branch and gives the optimistic UP with code 200 and a note.
- Neither file keeps a history store: the server pushes only the current readings, and the page keeps only the chart's window of the latest 21 points (`Charts`).
- The container selector's value (`select.value`) is the value of its first selected option. When no option is selected, a drop-down shows its first option, so the value is the first option's value. With no option at all, the value is the empty string. `ContainerList.SelectorValue` encodes this browser rule.
- The server emits each port's public port under the key `publicPort` (src/server.js:69). The page tests `port.PublicPort` (public/script.js:187). The model reproduces both as written and proves the consequence: the page never shows a port tag for data pushed by the server (`ContainerList.ServerPortsNeverTagged`, `ContainerList.ServerListHasNoPortTags`).

## Model

| member | source | states |
|---|---|---|
| Text.NatToString | public/script.js:90-93 | a number renders as a non-empty run of decimal digits with no leading zero |
| Text.ParseRendered | src/server.js:117 | `parseInt` of a rendered number gives the number back |
| Text.RenderParsed | src/server.js:117 | a digit run without a leading zero is the rendering of its `parseInt` value |
| Text.IncludesIffOccurs | src/server.js:155-158 | `includes` holds exactly when the needle occurs at some position of the text |
| Text.TrimEmptyIffBlank | src/server.js:125 | `trim()` yields the empty string exactly when every character is JavaScript white space |
| StatusLine.ScanAtIsPattern | src/server.js:116 | the scanner reads a code at a position exactly when the pattern matches there, and the code is the value of the longest digit run after the white space |
| StatusLine.FirstMatchIndexIsFirst | src/server.js:116 | the search stops at the leftmost position where the pattern matches, or at the end when none does |
| StatusLine.FindStatusCodeIsFirstMatch | src/server.js:116-117 | the parse `FindStatusCode` (the `match` and `parseInt` at src/server.js:116-117 and 167-169) finds no code exactly when no status line occurs; otherwise the code is the one captured by the leftmost match |
| StatusLine.FirstCaptureFound | src/server.js:116-117 | a capture at the leftmost match is what the parse returns |
| StatusLine.NoStatusLineNotFound | src/server.js:116-117 | output without a status line parses to no code |
| StatusLine.FoundIsFirstCapture | src/server.js:116-117 | a parsed code comes from the leftmost match |
| SiteCheck.CheckWebsiteStatus | src/server.js:92-139 | PARTIAL only after a curl error and with `pingOk`; UP always carries a code in [200, 400); a note only with UP and code 200; a curl error never gives a code or UP; DOWN with a code only for codes outside [200, 400) other than 0 |
| SiteCheck.StatusLineVerdict | src/server.js:116-124 | curl answered and the leftmost status line reads a non-zero code n: UP when 200 <= n < 400, DOWN otherwise, code n reported, ping ignored |
| SiteCheck.UnparsedOutputVerdict | src/server.js:117-132 | curl answered with non-blank output and no status line, or a code of 0: UP with code 200 and the note |
| SiteCheck.BlankHasNoStatusLine | src/server.js:116 | white-space-only output holds no status line |
| SiteCheck.BlankOutputVerdict | src/server.js:133-135 | curl answered with empty or white-space-only output: DOWN with no code, whatever ping says |
| SiteCheck.CurlErrorVerdict | src/server.js:98-110 | curl failed: PARTIAL exactly when ping succeeded and its output contains `TTL=`, DOWN otherwise, never a code |
| SiteCheck.CheckHttpsStatus | src/server.js:142-178 | a curl error is never HTTPS |
| SiteCheck.HttpsActiveIff | src/server.js:147-175 | HTTPS is active exactly when curl answered and either `HTTP/` and one of the three security headers occur, or the leftmost status line reads a code of at least 200 |
| SiteCheck.UpFromStatusLineMeansHttps | src/server.js:167-171 | a verdict of UP from a parsed status line implies HTTPS is active |
| ServerData.GetSystemStats | src/server.js:27-53 | the host's readings are passed on unchanged; a failure gives the zeroed record with `Inconnu` names and load average [0, 0, 0] |
| ServerData.ShortId | src/server.js:60 | the short id is a prefix of the id, 12 characters long or the whole id when it is shorter |
| ServerData.StripSlash | src/server.js:61 | the name is the raw name with one leading slash removed, or the raw name itself when it does not start with one |
| ServerData.ProjectPort | src/server.js:66-71 | a port record has exactly the keys `ip`, `privatePort`, `publicPort`, `type`, holding the runtime's `IP`, `PrivatePort`, `PublicPort`, `Type` |
| ServerData.ProjectPorts | src/server.js:66 | ports are projected one for one, in order |
| ServerData.ProjectAll | src/server.js:59 | containers are projected one for one, in order |
| ServerData.ProjectContainerFields | src/server.js:59-72 | each container record carries the short id, the first name less its leading slash, the same image, state, status and creation time, and its ports projected in order |
| ServerData.GetContainersEmptyIff | src/server.js:56-77 | the listing `GetContainers` returns is empty exactly when the runtime failed, reported nothing, or a container had no name; otherwise it has one record per container |
| Formatting.SplitUptime | public/script.js:81-87 | days, hours, minutes and the seconds left add back up to the input, with hours below 24, minutes below 60 and the seconds left in [0, 60) |
| Formatting.SplitUptimeUnique | public/script.js:81-87 | any split of the uptime within those bounds is the one computed |
| Formatting.WholeSecondsSplit | public/script.js:81-93 | for a whole number of seconds, days·86400 + hours·3600 + minutes·60 + the shown seconds equals the input |
| Formatting.FormatUptime | public/script.js:89-95 | the text ends with the floored seconds and `s`; the day part appears exactly when days > 0, the hour part exactly when days or hours are non-zero, the minute part exactly when any of days, hours, minutes is |
| Formatting.FormatMemorySize | public/script.js:99-110 | the unit index stays within the five units; size × 1024^index equals the input; below TB the size is under 1024; above B the size is at least 1 |
| Charts.ReplayKeepsLatest | public/script.js:123-131 | after any sequence of updates from an empty chart, a series holds exactly the latest 21 values, oldest first |
| Charts.ResourceChart.constructor | public/script.js:5-23 | the chart starts with no labels and no points |
| Charts.ResourceChart.UpdateCharts | public/script.js:119-137 | with more than 20 labels, the oldest entry of each array goes; the new label and values are appended; the other entries keep their order; equal lengths are preserved; a length of at most 21 stays at most 21 |
| ContainerList.CountRunning | public/script.js:148 | the running count never exceeds the number of containers |
| ContainerList.CountRunningAppend | public/script.js:148 | the running count of a concatenation is the sum of the parts' counts |
| ContainerList.CountRunningBounds | public/script.js:148 | the count equals the total exactly when all containers are `running`, and is zero exactly when none is |
| ContainerList.CountersOfUpdate | public/script.js:148-150 | in the panel `UpdateContainersList` computes, the active counter is the running count and the total counter is the list's length |
| ContainerList.StatusClass | public/script.js:176-181 | `status-running` exactly for `running`, `status-exited` exactly for `exited`, `status-created` for every other state |
| ContainerList.PortTags | public/script.js:184-191 | at most one tag per port, and every tag's public port is truthy |
| ContainerList.PortTagsAppend | public/script.js:186-190 | tags follow list order: the tags of a concatenation are the tags of the parts in turn |
| ContainerList.PortTagsSingle | public/script.js:187-188 | a port is tagged exactly when its `PublicPort` field is truthy, and its tag holds that port's `PrivatePort`, `PublicPort` and `Type`; with PortTagsAppend this fixes the tags of every port list |
| ContainerList.ServerPortsNeverTagged | public/script.js:187 | port records as the server emits them are never tagged |
| ContainerList.ServerListHasNoPortTags | public/script.js:184-191 | no list item built from the server's container listing has a port tag |
| ContainerList.RenderList | public/script.js:170-201 | one item per container, in order, with its status class and port tags |
| ContainerList.ContainerOptions | public/script.js:203-213 | one option per container, in order, valued by id and labelled by name, selected exactly when the id equals the previous selection |
| ContainerList.FirstSelectedValueAt | public/script.js:145 | with some option selected, the value `SelectorValue` reads is that of the first selected option |
| ContainerList.FirstSelectedValueNone | public/script.js:145 | with no option selected, no selected value is found |
| ContainerList.EmptyUpdateKeepsSelector | public/script.js:156-163 | an empty list shows the message, zero counters, and leaves the selector as it was |
| ContainerList.SelectionPreserved | public/script.js:145-214 | after `UpdateContainersList` rebuilds the selector the placeholder comes first; a container's option is selected exactly when its id equals the previous value; the selector shows the previous value when a container still has that id, and the placeholder otherwise |
| ContainerList.RebuiltSelectorValue | public/script.js:167-214 | the rebuilt selector's value is the previous value when some container has that id, and the empty string otherwise |

## Left out

- Spawning `curl` and `ping`, their command lines and their timeouts: each probe is a parameter holding its error flag and its standard output. The two curl runs of `checkWebsiteStatus` and `checkHttpsStatus` are separate processes in the program; the model gives each function its own input.
- Logging with `console.log` and `console.error`.
- The Express routes, socket.io connection handling and the per-connection interval timers: event-loop plumbing and network I/O.
- The Docker client calls (`listContainers`, `stats`, `logs`) and `getContainerStats`: a foreign library. Only the mapping of the listing is modelled, and its failure is the `None` input.
- The `os` host queries: their readings, or their failure, are the input of `GetSystemStats`.
- ServerData.GetContainers: the only thrown error modelled inside the projection is a container with no names. Other type errors (a missing `Id`, `Names` or `Ports` field) cannot arise in the typed records.
- The Chart.js setup, the chart redraw, and all DOM and `innerHTML` manipulation: only the values the page derives before rendering are modelled.
- ContainerList.ContainerOptions: a single-choice `<select>` keeps only the last option appended with `selected` set. When two containers share a short id, the model marks every matching option selected where the browser keeps only the last; the value shown is the same id either way.
- Floating-point arithmetic: uptimes and memory sizes are exact reals, and `toFixed(2)` and the CPU and memory percentages are not modelled.
- Formatting.FormatMemorySize: it returns the scaled size and the unit index rather than the rendered text, because `toFixed(2)` is not modelled.
- Formatting.FormatUptime: the contract states the seconds suffix and which unit parts appear. The digits of days, hours and minutes are given by `NatToString` in the body.
- Locale date and time strings (`toLocaleString`, `toLocaleTimeString`): the time label is a parameter of `UpdateCharts`.
- `fetchContainerLogs`: an HTTP fetch.
- Text.ParseRendered: `parseInt` is exact here, so codes beyond 2^53 are not rounded as JavaScript numbers would be.
- A history store with buckets, a retention cap and persistence does not appear in src/server.js or public/script.js, so there is nothing to model it from.
