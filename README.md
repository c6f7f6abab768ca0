# iotc-basic control logic, modelled in Dafny

The iotc-basic sample of this IoTConnect SDK runs on a cellular development board. It
connects to LTE, starts the IoTConnect client, publishes simulated telemetry on a schedule
and accepts firmware-update (OTA/FOTA) requests. Almost all of `samples/iotc-basic/src/main.c`
calls into vendor libraries. This project models the sequential logic between those calls:

- **Version gating** (`versions.dfy`, module `Versions`). `strcmp` on the offered version
  string against `MAIN_APP_VERSION` = `"01.01.00"` is modelled as `StrCmp`. It is proved equal
  to lexicographic order (`LexLess`). `Classify` gives the three outcomes of `on_ota`
  (same, needs update, device newer) and proves that exactly one holds. For versions written
  with two digits per field, as the comment on `MAIN_APP_VERSION` asks, the strcmp order is
  proved to be numeric (major, minor, patch) order. A one-digit counterexample shows why the
  convention is needed.
- **OTA URL splitting** (`ota_url.dfy`, module `OtaUrl`). `start_ota` is a method on an
  `array<char>` holding a NUL-terminated URL, and `fota_config` is the class `FotaConfig`
  whose host and path are pointers into that buffer. The routine only counts `'/'`
  characters. The host starts after the second slash. The third slash is overwritten with
  NUL and the path starts after it. With fewer than three slashes the result is `-EINVAL`
  and the buffer is unchanged. The model makes no claim of URI syntax conformance: ports,
  user information and the scheme are never examined.
- **The global flags** (`flags.dfy`, module `Flags`, as values; `iotc_app.dfy`, class
  `IotcApp.App`, as fields updated in place). These are `sdk_running`, `sdk_do_run`,
  `sdk_do_shutdown`, `do_reboot`, `fota_in_progress` and `button_handler`'s static
  `time_button_down`. One method per event changes them: the download callback, the button
  callback, `on_ota`, the phases of `sdk_run` and the two tests of `main`'s loop. The
  `time_init` failure path of `sdk_run` returns without clearing `sdk_running`, unlike every
  other early return. The model keeps that behaviour. `Flags.TimeInitFailureBlocksRestart`
  proves its consequence: after that failure, no sequence of button presses or download
  events gets `sdk_run` entered again, and only a reboot ends the wait.
- **The telemetry schedule** (`telemetry.dfy`, module `Telemetry`). This is one pass of
  `sdk_run`'s do-while loop. Time is an integer parameter, and the two Kconfig settings
  (send interval, duration in minutes) are parameters too. Publications are proved to be at
  least one interval apart.

`wrappers.dfy` (an `Option` type), `errno.dfy` (`EINVAL` = 22) and `cstrings.dfy` (`strlen`
on a buffer) are shared helpers. Results of foreign calls enter as parameters:
`nrf_fota_start`, `lte_lc_connect`, `time_init`, `iotconnect_sdk_init`,
`iotconnect_sdk_is_connected`, `k_uptime_get` and `time()`. Strings are `seq<char>` holding
the characters before the terminator. Characters compare by code point, which matches
strcmp's unsigned-char order for byte-sized characters.

The button handler records the time of a press and, on release, only tests that a press
time was recorded (that it is non-zero).

## Model

| member | source | states |
|---|---|---|
| `CStrings.StrLen` | samples/iotc-basic/src/main.c:106 | strlen's result is the index of the first NUL: the character there is NUL and none comes before it |
| `CStrings.Content` | samples/iotc-basic/src/main.c:106-108 | the text start_ota scans is the buffer up to its first NUL, contains no NUL, and the buffer has NUL right after it |
| `Versions.StrCmpIsLexicographic` | samples/iotc-basic/src/main.c:72-78 | strcmp's sign is negative iff the first string comes first lexicographically, zero iff the strings are equal, positive iff the second comes first |
| `Versions.IsSameVersion` | samples/iotc-basic/src/main.c:72-74 | is_app_version_same_as_ota holds exactly for the version "01.01.00" |
| `Versions.NeedsOtaUpdate` | samples/iotc-basic/src/main.c:76-78 | app_needs_ota_update holds iff "01.01.00" comes strictly before the offered version lexicographically, so never for the firmware's own version |
| `Versions.Classify` | samples/iotc-basic/src/main.c:132-157 | on_ota's branch is "same" iff the version equals "01.01.00", "needs update" iff "01.01.00" comes strictly first, "device newer" iff the offered version comes strictly first |
| `Versions.VersionTrichotomy` | samples/iotc-basic/src/main.c:72-78 | for every offered version exactly one of equal, lexicographically greater, lexicographically smaller holds |
| `Versions.TwoDigitGatingIsNumeric` | samples/iotc-basic/src/main.c:36 | for "DD.DD.DD" versions an update is needed iff the offered (major, minor, patch) is numerically larger, and the device is newer iff it is smaller |
| `Versions.OneDigitFieldsMisorder` | samples/iotc-basic/src/main.c:36 | without two-digit fields strcmp misorders versions: "1.10.0" comes before "1.9.0" |
| `OtaUrl.NthSlash` | samples/iotc-basic/src/main.c:108-113 | the k-th slash found by the scan is a '/' preceded by exactly k-1 slashes; there is none iff the text has fewer than k slashes |
| `OtaUrl.SplitUrl` | samples/iotc-basic/src/main.c:108-122 | host and path are found iff the text has at least three slashes; the host starts one past the 2nd slash, the path one past the 3rd, and the host text holds no '/'; with exactly two slashes only a host start is recorded |
| `OtaUrl.StartResult` | samples/iotc-basic/src/main.c:118-122 | with fewer than three slashes start_ota returns -EINVAL; with three or more it returns nrf_fota_start's result |
| `OtaUrl.SplitStrings` | samples/iotc-basic/src/main.c:112-115 | after the split only the 3rd slash has changed, to NUL; the C string at the host index is exactly the host text, with no '/'; the C string at the path index is the rest of the URL |
| `OtaUrl.FotaConfig.constructor` | samples/iotc-basic/src/main.c:43 | fota_config starts zeroed: no host, no path, no callback, no APN |
| `OtaUrl.StartOta` | samples/iotc-basic/src/main.c:105-123 | the buffer becomes the split buffer (unchanged with fewer than three slashes); fota_config gets host, path, callback and a null APN as the split says (the host alone with exactly two slashes); the result is nrf_fota_start's or -EINVAL |
| `Flags.AfterFotaEvent` | samples/iotc-basic/src/main.c:80-101 | FINISHED clears fota_in_progress, sets do_reboot, sets sdk_do_shutdown iff running (else leaves it); ERROR clears fota_in_progress and sets sdk_do_run iff not running, leaving do_reboot; other events change nothing |
| `Flags.AfterButton` | samples/iotc-basic/src/main.c:347-359 | a press records the uptime and changes no flag; a release after a recorded press sets sdk_do_shutdown if running, else sdk_do_run, never both; anything else changes nothing |
| `Flags.TakeRunTrigger` | samples/iotc-basic/src/main.c:444-452 | sdk_run is entered iff a start is requested and the SDK is not running, and the request is then cleared |
| `Flags.TakeRebootTrigger` | samples/iotc-basic/src/main.c:453-458 | the board reboots iff a reboot is requested, and the request is cleared |
| `Flags.BeginRun` | samples/iotc-basic/src/main.c:256-300 | the loop is reached iff LTE, time_init, configuration and SDK init all succeed; each failure returns the failing step's own non-zero code: lte_lc_connect's, time_init's, -EINVAL for missing CPID/ENV, iotconnect_sdk_init's; sdk_running stays set iff connected or time_init failed; no other flag changes |
| `Flags.RunningFlagIsSticky` | samples/iotc-basic/src/main.c:271-274 | with sdk_running set outside sdk_run, no sequence of callbacks and main-loop passes enters sdk_run; only a reboot ends it |
| `Flags.TimeInitFailureBlocksRestart` | samples/iotc-basic/src/main.c:271-274 | after a time_init failure, no later button or download event gets sdk_run started again |
| `Flags.ButtonRestartsAfterFailure` | samples/iotc-basic/src/main.c:263-300 | after any other start failure, pressing and releasing button 1 gets sdk_run entered on main's next pass |
| `Telemetry.StartLoop` | samples/iotc-basic/src/main.c:303-305 | the loop starts with exactly one interval already elapsed and sending stopping a full duration after the start |
| `Telemetry.Step` | samples/iotc-basic/src/main.c:309-329 | a pending shutdown is taken and ends the loop with nothing else changed; otherwise publish iff connected, interval elapsed and no FOTA; last_send_time moves to now iff connected and elapsed (during FOTA too); FOTA refreshes stop_send_time; loop again iff duration >= 0 and time is before stop_send_time |
| `Telemetry.FirstCheckIsDue` | samples/iotc-basic/src/main.c:304-319 | the first connected pass publishes when no download is in progress |
| `Telemetry.DownloadKeepsLoopAlive` | samples/iotc-basic/src/main.c:323-329 | during a download a pass that ends within the configured duration of its time check always goes round again |
| `Telemetry.PublishesAreSpaced` | samples/iotc-basic/src/main.c:316-322 | the first publication comes at least one interval after last_send_time and successive ones at least one interval apart |
| `IotcApp.OtaAck` | samples/iotc-basic/src/main.c:129-160 | no ack iff an update is needed and start_ota returned 0; every ack carries a message and reports success iff the version is the same |
| `IotcApp.LegacyAck` | samples/iotc-basic/src/main.c:161-172 | a request without URL gets a failure ack, with a message iff it carried a command |
| `IotcApp.OtaStartedOnlyForNewerVersion` | samples/iotc-basic/src/main.c:132-148 | the download is started (no ack) iff the offered version is strictly greater and start_ota returns 0; acks report success iff the version is equal |
| `IotcApp.App.constructor` | samples/iotc-basic/src/main.c:39-50 | the flags start as initialised: the SDK is to be started, nothing else pending, fota_config zeroed |
| `IotcApp.App.NrfFotaCb` | samples/iotc-basic/src/main.c:80-101 | the flags change as AfterFotaEvent says; the loop times do not change |
| `IotcApp.App.ButtonHandler` | samples/iotc-basic/src/main.c:347-359 | the flags and time_button_down change as AfterButton says |
| `IotcApp.App.OnOta` | samples/iotc-basic/src/main.c:125-178 | no URL: legacy ack, nothing changes; otherwise the ack is OtaAck of the verdict and start_ota's result; the buffer and fota_config change only for a newer version, as StartOta says; fota_in_progress is set exactly when no ack is sent |
| `IotcApp.App.SdkRunBegin` | samples/iotc-basic/src/main.c:256-305 | flags and outcome are BeginRun's, with "configured" meaning CPID and ENV both non-empty; on success the loop times are StartLoop's |
| `IotcApp.App.SdkRunLoopStep` | samples/iotc-basic/src/main.c:309-329 | times, publication and continuation are Step's; a pending shutdown is cleared and no other flag changes |
| `IotcApp.App.SdkRunEnd` | samples/iotc-basic/src/main.c:331-344 | sdk_running is cleared; LTE goes offline iff no download is in progress |
| `IotcApp.App.PollRunTrigger` | samples/iotc-basic/src/main.c:444-452 | flags and result are TakeRunTrigger's |
| `IotcApp.App.PollRebootTrigger` | samples/iotc-basic/src/main.c:453-458 | flags and result are TakeRebootTrigger's |

## Left out

- Modem, AT and bsdlib initialisation, certificate provisioning, `lte_lc_init`,
  `nrf_fota_init` and IMEI retrieval (main.c:361-419) are foreign SDK calls. Their results do not reach the modelled flags.
- `nrf_fota_start`, `lte_lc_connect`, `iotconnect_sdk_init`, `iotconnect_sdk_is_connected`
  and `time_init`'s result are foreign. They enter as parameters. `time_init` wraps
  `nrf_modem_get_time` and gives up after 5 tries; its retry loop is not modelled.
- The IoTConnect/MQTT client and the `iotcl_*` builders are left out: URL, version and command cloning, ack JSON
  construction, `iotconnect_sdk_send_packet`. An ack is the pair (success, message) that
  on_ota hands to the builder. The builder failing to make one (NULL) is not modelled.
- The lifetime of the cloned URL buffer is not modelled. on_ota frees it (main.c:159)
  whenever it sends an ack for a request that had a URL. After a failed start (exactly two
  slashes, or a non-zero `nrf_fota_start` result), `fota_config.host` and `path` then point
  into freed memory, but `App.OnOta` shows them as pointers into a live array.
- The version string cloned from the request is taken to be present. The source passes it
  to strcmp without a NULL check.
- `publish_telemetry` (library calls and `time(NULL) % 100`), `on_command` and
  `on_connection_status` (LED colours, `boot_write_img_confirmed`) are left out. They are UI and library side effects.
- LEDs/PWM, `k_msleep`, `sys_reboot` and the clocks are left out. This includes the LED blink
  after `sdk_run`, which `main` performs when sdk_run returns 0, its success value. A
  reboot ends a replay of events (`Flags.Replay`).
- The DUID construction (`strcpy`/`strcat` into a 30-byte buffer) is left out. Its bound is never checked.
- Interleaving is left out. Callbacks are taken to run between passes of the loops, one at a time.
  `iotconnect_sdk_loop` delivers `on_ota` within a pass, and this is modelled as a call
  before `SdkRunLoopStep`.
- `time_t` and `int64_t` widths are not modelled: times, uptimes and `60 * duration` are unbounded
  integers.
- `common/sensors/motion/motion.h` is left out. It holds only declarations and floating-point data, with no logic.
