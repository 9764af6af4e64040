# rustscanner: the decisions of a TCP port scanner, in Dafny

`rustscanner` connects to every TCP port of a range on one host, reads a short
banner from each open port, and labels the service it finds. This project models
the decisions the scanner makes. The sockets, threads and console output are not
modelled. There are four parts:

- **Probe payload** (`banner.dfy`, module `Banner`). Ports 80, 8080 and 443 are sent an
  HTTP `HEAD` request. Port 631 is sent a `GET` with a `Host` header. Every other
  port is sent nothing.
- **Banner line extraction** (`banner.dfy`). The decoded reply is split into lines as
  Rust's `str::lines` splits it. The first line whose lower-cased form starts with
  `server:` is chosen. If there is none, the first line is chosen. The chosen line
  is trimmed, and an empty result, a failed read or a read of zero bytes gives no
  banner. A failed probe write also gives no banner.
- **Fingerprinting** (`fingerprint.dfy`, module `Fingerprint`). The two tables are
  constant sequences:
  - the 16-entry signature table, searched in order by case-insensitive containment;
  - the 16-entry port-hint table, whose label is returned with the suffix
    `" (port-based guess)"`.
  
  If neither table matches, the label is `"Unknown"`. `Fingerprint` is a Dafny
  function, so it is pure and deterministic by construction.
- **Scan aggregation** (`scan.dfy`, module `Scan`). The method `Scan` works as follows:
  - it rejects `start > end` before it reads any probe outcome;
  - it pushes one `(port, banner)` per open port, in an arbitrary completion
    order `order`;
  - it copies the vector into an array and sorts it in place by port.
  
  It is proved that the result equals `OpenPorts(start, end, open)`. That is the
  open ports of the range, strictly ascending, each with its banner. So the report
  does not depend on how the concurrent probe units were scheduled.

`strings.dfy` (module `Strings`) models the Rust string operations that the
decisions use:
- lower-casing (ASCII letters only);
- `starts_with` and `contains`;
- `trim`, which removes characters with the Unicode White_Space property, as
  `char::is_whitespace` does;
- `lines`.

`types.dfy` holds `Option` and the `u16` port type.

The environment appears as inputs:
- `open: map<Port, Peer>` holds the ports whose connection attempt succeeds.
- A `Peer` says whether the probe write succeeds and what the single read returns.
  The read is either `Read(n, text)`, where `text` is the lossy decoding of the
  `n` bytes read, or `ReadFailed`.
- `order` is the order in which the per-port units finish.

`Lines` follows current Rust. A `'\r'` is removed only when it ends a line that
`'\n'` terminates. Older Rust also removed a bare final `'\r'`. After `trim` the
two behaviours give the same banner.

## Model

| member | source | states |
|---|---|---|
| `Strings.ContainsIff` | rustscanner/src/main.rs:109 | The left-to-right search `Contains(s, p)` succeeds exactly when `p` occurs at some index of `s`. |
| `Strings.Trim` | rustscanner/src/main.rs:58 | `trim` gives the slice of the line between its leading and its trailing whitespace. The result is empty exactly when the line is all whitespace. Otherwise it starts and ends with non-whitespace. |
| `Strings.Lines` | rustscanner/src/main.rs:54 | `lines` gives no line exactly for the empty text. No line contains `'\n'`. |
| `Strings.UnlinesLines` | rustscanner/src/main.rs:54 | Round trip: text without `'\r'` that ends in a newline is recovered by joining its lines with newlines. |
| `Strings.JoinCrlfLines` | rustscanner/src/main.rs:54 | Round trip for CRLF framing: text that is empty or ends in `"\r\n"`, with every `'\n'` preceded by `'\r'`, is recovered by joining its lines with `"\r\n"`. So `lines` drops exactly the `'\r'` of each line ending and nothing else. |
| `Strings.LowerChar` | rustscanner/src/main.rs:55 | Lower-casing a character never yields an ASCII capital. A capital becomes the same letter in lower case, and every other character is unchanged. |
| `Strings.ToLower` | rustscanner/src/main.rs:107 | `to_lowercase` keeps the length and lower-cases each character in place. No ASCII capital is left in the result. |
| `Strings.StartsWith` | rustscanner/src/main.rs:55 | `starts_with` holds exactly when the prefix is no longer than the text and agrees with it character by character. |
| `Strings.Contains` | rustscanner/src/main.rs:109 | The search succeeds whenever the pattern is a prefix, and never when the pattern is longer than the text. `ContainsIff` gives the full characterisation. |
| `Banner.ProbePayload` | rustscanner/src/main.rs:38-42 | Ports 80, 8080 and 443 get exactly the HEAD request. Port 631 gets exactly the GET request. Every other port gets the empty payload, in both directions of each iff. |
| `Banner.ProbesAreHttpRequests` | rustscanner/src/main.rs:39-40 | Each non-empty probe is a whole HTTP/1.0 request for `/`. Its first line is `HEAD / HTTP/1.0` (or `GET / HTTP/1.0` for 631), and it ends with the empty line `\r\n\r\n`. |
| `Banner.IsServerLine` | rustscanner/src/main.rs:55 | The `find` closure accepts a line exactly when its first seven characters, lower-cased, spell `server:`. The test is case-insensitive and applies to the untrimmed line. |
| `Banner.SelectLine` | rustscanner/src/main.rs:54-57 | `find(..).or_else(next).unwrap_or("")` gives the first `Server:` line if there is one. Otherwise it gives the first line, or `""` when there are no lines. A non-empty choice is always one of the lines. |
| `Banner.FirstServerLine` | rustscanner/src/main.rs:54-55 | The `find` gives the index of a `Server:` line with no `Server:` line before it, or says that no line is one. |
| `Banner.ExtractBanner` | rustscanner/src/main.rs:51-64 | A failed read or a zero-byte read gives `None`. A banner is never empty, has no leading or trailing whitespace, and holds no newline. |
| `Banner.GrabBanner` | rustscanner/src/main.rs:35-64 | When a probe is due and the write fails, there is no banner. Otherwise the banner is what the single read yields. |
| `Banner.PassivePortIgnoresWrite` | rustscanner/src/main.rs:41-48 | Nothing is written to a port without a probe, so the write outcome cannot change its banner. |
| `Banner.LeadingWhitespaceBlocksServer` | rustscanner/src/main.rs:55-58 | A line that starts with whitespace is never taken as the `Server:` line, because the prefix test runs before trimming. |
| `Banner.TrimKeepsServerLine` | rustscanner/src/main.rs:55-58 | A `Server:` line is never trimmed away. It stays a `Server:` line and is a prefix of the original, so its casing is kept. |
| `Banner.ServerLineWins` | rustscanner/src/main.rs:54-61 | If line k is the first `Server:` line, the banner is `Some(trim(line k))` in its original casing. |
| `Banner.FirstLineFallback` | rustscanner/src/main.rs:54-61 | With no `Server:` line, an empty reply gives `None`. Otherwise the banner is the trimmed first line, or `None` if that line is blank. |
| `Banner.GreetingIsBanner` | rustscanner/src/main.rs:52-61 | A one-line greeting that is not a `Server:` line and has nothing to trim is the banner as it stands. |
| `Banner.SshGreetingExample` | rustscanner/src/main.rs:38-61 | Port 22 sends nothing. Its greeting `SSH-2.0-OpenSSH_8.9` becomes the banner. |
| `Banner.ServerAfterStatusLine` | rustscanner/src/main.rs:54-61 | A `Server:` header right after a status line that is not one is chosen over the status line, whatever headers follow. |
| `Banner.ServerHeaderExample` | rustscanner/src/main.rs:54-61 | A reply with `Server: nginx/1.18.0` among other headers gives that line verbatim. |
| `Banner.IndentedServerLineLoses` | rustscanner/src/main.rs:54-61 | In a reply of exactly two lines, a status line and then a header line that starts with whitespace, the trimmed status line is the banner. The header is never the banner there. |
| `Banner.IndentedServerHeaderExample` | rustscanner/src/main.rs:54-61 | A reply whose `Server:` header is indented by one space gives the status line `HTTP/1.1 200 OK`. |
| `Fingerprint.Matches` | rustscanner/src/main.rs:109 | A signature matches exactly when its lower-cased pattern occurs at some index of the lower-cased banner. |
| `Fingerprint.FirstSignature` | rustscanner/src/main.rs:106-113 | The signature loop gives a matching entry with no matching entry before it, or says that no entry matches. |
| `Fingerprint.FirstHint` | rustscanner/src/main.rs:115-119 | The hint loop gives an entry for the port with none before it, or says that the port is not in the table. |
| `Fingerprint.LabelsNonEmpty` | rustscanner/src/main.rs:68-104 | Every label in both tables is non-empty. |
| `Fingerprint.Fingerprint` | rustscanner/src/main.rs:67-122 | The classifier always returns a non-empty label. |
| `Fingerprint.FirstMatchWins` | rustscanner/src/main.rs:106-113 | If entry k is the first signature whose lower-cased pattern the lower-cased banner contains, the label is entry k's label. |
| `Fingerprint.MatchBoundsLabel` | rustscanner/src/main.rs:106-113 | If entry k matches, the label comes from a matching entry at or before k. Only an earlier match can overrule it. |
| `Fingerprint.PortGuess` | rustscanner/src/main.rs:115-119 | With no banner, or a banner that matches no signature, a port in the hint table gets `"<label> (port-based guess)"`. |
| `Fingerprint.HintPortsDistinct` | rustscanner/src/main.rs:87-104 | No port appears twice in the hint table, so each port has at most one guess. |
| `Fingerprint.UnknownFallback` | rustscanner/src/main.rs:121 | With no signature match and no hint for the port, the label is exactly `"Unknown"`. |
| `Fingerprint.FingerprintCases` | rustscanner/src/main.rs:106-121 | Every label is one of three kinds: a signature label backed by the banner, a port guess when no signature matches, or `"Unknown"` when neither table applies. |
| `Fingerprint.NoGenericHttpUpToApache` | rustscanner/src/main.rs:69-79 | The `Apache` entry comes before the generic `HTTP/1.` entry, and no entry up to `Apache` is labelled `HTTP`. |
| `Fingerprint.ApacheBeatsGenericHttp` | rustscanner/src/main.rs:75-79 | A banner that mentions Apache is never classified as plain `HTTP`. Unless an earlier service pattern matches, it is `HTTP (Apache)`. |
| `Fingerprint.OpenRestyTable` | rustscanner/src/main.rs:76-77 | The `openresty` entry is labelled `HTTP (OpenResty/nginx)`, and no entry up to and including it is labelled `HTTP (nginx)` or `HTTP`. |
| `Fingerprint.OpenRestyBeforeNginx` | rustscanner/src/main.rs:76-79 | A banner that mentions openresty is never labelled `HTTP (nginx)` or `HTTP`. |
| `Fingerprint.RedisGuessExample` | rustscanner/src/main.rs:100 | Port 6379 with no banner gives `Redis (port-based guess)`. |
| `Fingerprint.UnknownExample` | rustscanner/src/main.rs:121 | Port 50000 with no banner gives `Unknown`. |
| `Fingerprint.SshBannerExample` | rustscanner/src/main.rs:69 | The banner `SSH-2.0-OpenSSH_8.9` on port 22 gives `SSH`. |
| `Scan.OpenPorts` | rustscanner/src/main.rs:139-160 | The expected report has at most one entry per port of the range. Every entry is for an open port of the range. `OpenPortsMembers` and `OpenPortsAscending` give the exact contents and order. |
| `Scan.Pushed` | rustscanner/src/main.rs:147-148 | The shared vector has at most one push per finished unit, and only units whose port is open push. `PushedMembers` gives the exact contents. |
| `Scan.OpenPortsMembers` | rustscanner/src/main.rs:139-149 | The expected report holds a result exactly for each port of the range that accepted a connection, with that port's banner. |
| `Scan.OpenPortsAscending` | rustscanner/src/main.rs:159-160 | The expected report is strictly ascending by port, so it has no duplicates. |
| `Scan.OpenPortsSpec` | rustscanner/src/main.rs:139-160 | The expected report is strictly ascending. It holds exactly the open ports of `[start, end]` with their banners. |
| `Scan.InsertAt` | rustscanner/src/main.rs:160 | One insertion step of the in-place sort extends the port-ordered prefix by one element, keeping the array's contents as a multiset. |
| `Scan.RunUnits` | rustscanner/src/main.rs:139-157 | Running the units in completion order leaves the shared vector equal to the pushes of the open ports, in that order. |
| `Scan.SortByPort` | rustscanner/src/main.rs:160 | The in-place sort leaves the array ordered by port and a permutation of what it held. |
| `Scan.Scan` | rustscanner/src/main.rs:128-160 | `start > end` is rejected and nothing else is. For any completion order, an accepted scan yields the expected report. That report is strictly ascending and every port in it lies in `[start, end]`. |
| `Scan.PushedMembers` | rustscanner/src/main.rs:145-148 | The shared vector holds a `(port, banner)` exactly for each unit that ran and whose port was open. |
| `Scan.PushedNoDuplicates` | rustscanner/src/main.rs:139-148 | When each port's unit runs once, no entry is pushed twice. |
| `Scan.StrictlyAscendingUnique` | rustscanner/src/main.rs:160 | Two strictly port-ascending lists with the same entries are equal. |
| `Scan.SortedPushesAreOpenPorts` | rustscanner/src/main.rs:139-160 | Whatever the completion order, any port-sorted permutation of the pushed entries is the expected report. |
| `Scan.NoOpenPortsNoResults` | rustscanner/src/main.rs:162-165 | A range with no open port yields an empty report. |
| `Scan.SingleOpenPort` | rustscanner/src/main.rs:139-160 | A range whose only open port is p yields exactly p's result, whatever other ports outside the range are open. |
| `Scan.OnlyListener` | rustscanner/src/main.rs:139-160 | A host whose single listener is on a port of the range yields exactly that listener's result. |
| `Scan.SingleSshListenerExample` | rustscanner/src/main.rs:139-171 | One SSH listener on port 22 in range 1 to 100 gives the single result `(22, "SSH-2.0-OpenSSH_8.9")`, and that result classifies as `SSH`. |

## Left out

- `scan_port` (rustscanner/src/main.rs:25-33) is network I/O. The address parse and the connect with timeout become the input map `open`. The parse is `SocketAddr` parsing, not name resolution, so a host-name target would connect nowhere. The model does not capture that.
- `set_read_timeout`, `write_all` and `read` in `grab_banner` are I/O. Their outcomes are the fields of `Peer`. The 1000 ms read timeout shows up only as a possible `ReadFailed`.
- `String::from_utf8_lossy` is library behaviour. The model takes the decoded text as input together with the byte count `n`.
- ToLower: lower-cases ASCII letters only, not by Rust's full Unicode `to_lowercase`. The tests the scanner makes give the same answers either way:
  - All the patterns and `server:` are ASCII.
  - Only two non-ASCII characters lower-case to something that holds ASCII. U+212A (the Kelvin sign) becomes `k`. U+0130 becomes `i` followed by U+0307.
  - No pattern and not `server:` contains `k`.
  - No pattern ends in `i`, and no pattern has U+0307 after an `i`.
  - So neither character can complete a match in Rust that the model misses. Every other non-ASCII character lower-cases to non-ASCII in both.
- ReadResult: does not tie `n` to `text`. `Read(5, "")` and `Read(5000, ..)` are accepted inputs, although the program reads at most 1024 bytes, and more than zero bytes always decode to non-empty text. The `text == []` case of `FirstLineFallback` is therefore one the program cannot reach.
- The thread per port, the `Arc<Mutex<…>>` and the `join` loop (rustscanner/src/main.rs:136-157) are concurrency. They are replaced by a sequential loop over an arbitrary completion order. Mutex poisoning and thread-spawn failure, which would panic, are not modelled.
- SortByPort: does not state that the sort is stable, as `sort_by_key` is. Ports in the vector are distinct, so stability cannot be observed.
- Command-line parsing with clap, the console messages, the table layout and the exit code (rustscanner/src/main.rs:8-23, 124-134, 162-176) are presentation. Only the fact that an empty result means "no open ports" is modelled, by `NoOpenPortsNoResults`. The per-row call to `fingerprint` in the print loop is not modelled as a loop. `SingleSshListenerExample` illustrates it for one row.
