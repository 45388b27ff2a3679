# The `projects` command, modelled in Dafny

`oc projects` shows which project the current kubeconfig context selects. It
also lists every project the user can see. It accepts no positional
arguments. It has a terse mode (`--short`/`-q`) that prints bare names.

This model covers how the command decides and builds its output, in
`pkg/oc/cli/projects/projects.go`:

- `Validate` rejects positional arguments.
- `SortByProjectName` (`Less`, `Swap`) and `sort.Sort` order the listing by
  name, in place.
- `RunProjects` does the rest. It resolves the current project from the
  current context and notes whether access to it was confirmed. It builds the
  message for 0, 1 or 2+ projects in short or verbose mode. It picks the short
  or long "Using project …" footer by comparing the context's name with its
  generated nickname.

Everything the command gets from outside is an input (`Projects.Env`):

- the result of `ConfirmProjectAccess` for a project name;
- the listing or the error from `GetProjects`;
- `GetContextNickname`;
- `DisplayNameAndNameForProject`;
- Go's `%q` quoting.

A run returns a `Report` with four parts:

- the text given to `fmt.Println`, or none when nothing is printed;
- the forbidden-access advisory;
- the footer;
- the returned error.

Files:

- `Text.dfy`, module `Text`:
  - Go's `<` on strings (`Text.Less`), a lexicographic order. Dafny's own `<`
    on sequences means "proper prefix", so it cannot stand in for Go's.
  - `Join` and `Split` on `"\n"`, used to state the printed lines.
- `Projects.dfy`, module `Projects`: the data, the sort over an `array`, the
  message-building loop, the footer logic and the command.

## Model

| member | source | states |
|---|---|---|
| `Projects.Validate` | pkg/oc/cli/projects/projects.go:119-124 | the result is an error exactly when `args` is non-empty, and that error says that no arguments should be passed |
| `Projects.Swap` | pkg/oc/cli/projects/projects.go:56-58 | entries i and j trade places, every other entry is unchanged, and the multiset of entries is the same |
| `Projects.Less` | pkg/oc/cli/projects/projects.go:59-61 | entry i is below entry j when its name is below j's under Go's string order; no entry is below itself, the relation never holds both ways, and two entries neither below the other share their name, so `Less` orders entries by name alone |
| `Text.Less` | pkg/oc/cli/projects/projects.go:60 | Go's `<` on the names: nothing is below the empty string, and a proper prefix is below the longer string |
| `Text.LessIsLexBelow` | pkg/oc/cli/projects/projects.go:60 | `Text.Less` holds exactly when the first string is a proper prefix of the second, or the two agree up to a position where the first has the smaller character |
| `Text.LessAsymmetric` | pkg/oc/cli/projects/projects.go:59-61 | no two names are each below the other |
| `Text.LessIrreflexive` | pkg/oc/cli/projects/projects.go:59-61 | no name is below itself under Go's string order |
| `Text.LessTransitive` | pkg/oc/cli/projects/projects.go:59-61 | Go's string order is transitive |
| `Text.LessTotal` | pkg/oc/cli/projects/projects.go:59-61 | any two different names are ordered one way or the other, so comparing names alone is a strict total order |
| `Projects.Sort` | pkg/oc/cli/projects/projects.go:173 | sorting through `Less` and `Swap` leaves the array ascending by name and a permutation of what it held |
| `Projects.SortedUniqueAscends` | pkg/oc/cli/projects/projects.go:173 | when no name repeats, a sorted listing is strictly ascending by name |
| `Projects.SortedOrderUnique` | pkg/oc/cli/projects/projects.go:173 | when no name repeats, any two sorted permutations of the same projects are equal, so the unstable sort cannot change the output |
| `Projects.DisplayName` | pkg/oc/cli/projects/projects.go:176-180 | the display name is the `OpenShiftDisplayName` annotation when that is present and non-empty, otherwise the `displayName` annotation, otherwise "" |
| `Projects.Marker` | pkg/oc/cli/projects/projects.go:182-187 | a line's marker has four characters when the current project was confirmed, and is empty otherwise |
| `Projects.Entry` | pkg/oc/cli/projects/projects.go:174-195 | one turn of the loop appends, in short mode, the bare name, with a line break before it unless it is the first; in verbose mode it appends a line break, the marker, the name and " - " plus the display name when that is non-empty and differs from the name; `asterisk` stays "" unless the project is confirmed and the mode is verbose |
| `Projects.ListProjects` | pkg/oc/cli/projects/projects.go:166-196 | the listing ends sorted by name and a permutation of the input, and the message gains exactly one entry per project in that order |
| `Projects.BuildMessage` | pkg/oc/cli/projects/projects.go:155-197 | 0 projects: "" in short mode, the fixed "You are not a member of any projects…" sentence in verbose mode; 1 project: its name, or "You have one project on this server: " + quote(DisplayNameAndNameForProject) + "."; 2+ projects: sorted, in short mode the sorted names joined by line breaks, in verbose mode the header, a blank line, and one verbose line per project in sorted order |
| `Projects.ShortMessageLines` | pkg/oc/cli/projects/projects.go:166-196 | in short mode each printed line is exactly one project name, in printed order, with no header, marker, display name or leading blank line |
| `Projects.VerboseMessageLines` | pkg/oc/cli/projects/projects.go:166-196 | in verbose mode with 2+ projects the printed lines are the header naming the command, an empty line, then one line per project in printed order |
| `Projects.MarkedLine` | pkg/oc/cli/projects/projects.go:182-187 | when the current project is confirmed, a project's line starts with "  * " exactly when its name is the current project, and with four spaces otherwise |
| `Projects.UnmarkedLine` | pkg/oc/cli/projects/projects.go:182-194 | when the current project is not confirmed, every project's line starts with its bare name |
| `Projects.CurrentProject` | pkg/oc/cli/projects/projects.go:130-134 | the current project is the namespace of the current context when the configuration holds that context, and "" otherwise |
| `Projects.Confirmed` | pkg/oc/cli/projects/projects.go:136-145 | the current project counts as existing only when the configuration holds the current context, its namespace is non-empty, and `ConfirmProjectAccess` reported no failure for it (`AccessResult` is None) |
| `Projects.DefaultContextName` | pkg/oc/cli/projects/projects.go:147-150 | the default context name is the nickname generated from the current context's namespace, cluster and user when that context exists, and "" otherwise |
| `Projects.Epilogue` | pkg/oc/cli/projects/projects.go:200-216 | the footer appears exactly when the listing is non-empty, the mode is verbose and the project is confirmed; it is the short form exactly when the context's name equals its nickname, and the long form naming the context otherwise; the advisory appears exactly when the listing is non-empty, the mode is verbose, the project is unconfirmed and the checked error is Forbidden; an error is returned exactly when the listing is non-empty, the mode is verbose, the project is unconfirmed and the checked error is set |
| `Projects.Render` | pkg/oc/cli/projects/projects.go:152-219 | an enumeration error is returned and nothing is printed; otherwise the message of the printed listing is printed, followed by what `Epilogue` decides |
| `Projects.RunProjects` | pkg/oc/cli/projects/projects.go:127-220 | as written. The current project is the current context's namespace, or "" without a context. The message marks projects only when that project is non-empty and access to it was confirmed. On success no advisory is printed and no error is returned, whatever `ConfirmProjectAccess` reports. The footer appears only for a non-empty verbose listing with the project confirmed, in short form exactly when the context's name equals its nickname. An enumeration error is returned with nothing printed |
| `Projects.RunProjectsCorrected` | pkg/oc/cli/projects/projects.go:136-206 | with the access error kept in the outer variable, a non-empty verbose listing whose current project is not confirmed ends with no footer. It returns the access error when `ConfirmProjectAccess` reported one, and prints the advisory exactly when that error is Forbidden |
| `Projects.ThreeProjectsOrder` | pkg/oc/cli/projects/projects.go:173 | projects listed as c, a, b are printed in the order a, b, c |
| `Projects.ThreeProjectsMarkers` | pkg/oc/cli/projects/projects.go:182-189 | with b current and confirmed, the lines are "    a", "  * b", "    c" |
| `Projects.ForbiddenProjectExample` | pkg/oc/cli/projects/projects.go:200-206 | for a non-empty verbose listing whose current project is unconfirmed, the nil error the code checks gives no advisory, no footer and no error, while a Forbidden error would give the advisory and the error |

## Findings

| source | as written | input that shows it | evidently intended | confidence | as-written member | corrected member |
|---|---|---|---|---|---|---|
| pkg/oc/cli/projects/projects.go:142 | the `:=` in the `if` declares a new `currentProjectErr`, so the variable tested at line 202 and returned at line 205 is always nil | the current context selects namespace "dev"; `ConfirmProjectAccess("dev")` reports Forbidden; one project is listed; verbose mode | print "You do not have rights to view project "dev"…" and return the access error | high; not executed | `Projects.RunProjects`, with `Projects.ForbiddenProjectExample` | `Projects.RunProjectsCorrected` |

`RunProjects` follows the code as written. `RunProjectsCorrected` differs in
one place: it assigns the outer variable. Both share `Render`, `BuildMessage`
and `Epilogue`. `Epilogue` receives the error that the check at line 202
reads: nil as written, the access error as intended. The intent is read off
lines 202-205 themselves. Line 203 prints an advisory only when
`kapierrors.IsForbidden(currentProjectErr)` holds, and line 205 returns
`currentProjectErr`. Both lines only do something when the value
`ConfirmProjectAccess` returned at line 142 reaches them. As written, line 203
never fires and line 205 always returns nil.

## Left out

- `Complete`, `NewCmdProjects` and `NewProjectsOptions` (lines 43-48, 72-117) are left out. They wire cobra flags, load the kubeconfig and build REST clients. `Projects.Options` holds what they produce.
- `ConfirmProjectAccess` and `GetProjects` make network calls. They are inputs in `Projects.Env`: a function from a project name to an optional failure, and a listing-or-error value.
- `GetContextNickname` and `DisplayNameAndNameForProject` are not part of this model. They are uninterpreted, function-valued fields of `Projects.Env`.
- Go's `%q` escaping is the uninterpreted `quote` field of `Projects.Env`.
- `kapierrors.IsForbidden` is modelled as the test that the failure is `Forbidden`.
- The value `"openshift.io/display-name"` given to `OpenShiftDisplayName` comes from a package that is not part of this model. No proof depends on it.
- The streams are left out: which stream each part goes to, and the newline `fmt.Println` adds. The parts are returned as separate fields of `Report`.
- `Len` (lines 53-55) is the array's `Length`, which `Projects.Sort` reads directly.
- `sort.Sort`'s own algorithm is left out. `Projects.Sort` stands in for it: a selection sort that goes through `Less` and `Swap`. Only sortedness and permutation are specified.
- The lines of the printed text are stated with `Text.Split`. The line-structure lemmas assume that names, display names and the command name hold no line break. Project names cannot hold one.
- A context name present in the Go map with a nil value is not modelled. A missing key stands for a nil context.
