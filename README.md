# Kakeibo monthly dashboard, modelled in Dafny

Kakeibo is a small household-accounts web application. Its only computation
is the monthly dashboard. The dashboard takes a year and a month from the query
string, falling back to today. It then builds:

- the month's first day, its length, the first day of the next month and the
  previous/next navigation targets;
- the user's transactions in that month;
- the month's income, expense and balance;
- the expense breakdown by category (grouped in first-encounter order, then
  stably sorted by descending total, with labels and values);
- three per-day series (income, expense, balance), filled in place by a loop;
- the calendar matrix of Sunday-first weeks, with 0 for padding.

The application also normalises the `DATABASE_URL` setting. It renames the
legacy `postgres://` scheme for the psycopg driver and appends
`sslmode=require` unless the URL already mentions `sslmode=`. It falls back
to a local SQLite file when the setting is missing or empty.

The project has one module per part:

| module | file | what it holds |
|---|---|---|
| `Wrappers` | wrappers.dfy | `Option` and `Result` |
| `Dates` | dates.dfy | Gregorian leap years, month lengths, day ordinals, weekdays, date order |
| `MonthNav` | month_nav.dfy | resolving the month from the query, the month bounds, previous/next month |
| `Ledger` | ledger.dfy | transactions, the uncategorised name, the monthly totals |
| `Categories` | categories.dfy | the `defaultdict` grouping loop (a method) and the stable descending sort |
| `Daily` | daily.dfy | the three daily series as arrays filled by a loop (a method) |
| `MonthCalendar` | month_calendar.dfy | `calendar.monthcalendar` as functions, and its layout lemmas |
| `DatabaseUrl` | database_url.dfy | the URL rewrite, both as the step-by-step method and as functions |
| `Dashboard` | dashboard.dfy | the date-range query and the whole dashboard |

The pure parts of the source are modelled as functions and lemmas: month
bounds, navigation, totals and the calendar. The parts that work step by
step are modelled as methods: the grouping loop, the daily loop that mutates
three lists in place, and the reassigned URL variable. Each method is proved
against a specification function, and the properties are proved about that
function.

The month is not range-checked before the dates are built:
`date(year, month, 1)` raises for a month outside 1..12 or a year outside
1..9999, and `date(year + 1, 1, 1)` raises for December 9999. The model
returns `Failure(DateOutOfRange(...))` in exactly these cases
(`MonthNav.ComputeMonthBounds`).

## Model

| member | source | states |
|---|---|---|
| MonthNav.ResolveMonth | kakeibo_app/app.py:157-162 | A year or month that is absent, not an integer, or zero falls back to today's year or month; any other value is used as given |
| MonthNav.ResolveDefaults | kakeibo_app/app.py:157-167 | Given a valid today, a query whose parts are absent, zero or in range (year 1..9999, month 1..12) yields a month whose dates can be built, unless the resolved month is December 9999 |
| Dates.DaysInMonth | kakeibo_app/app.py:168 | `monthrange(year, month)[1]` is 31 exactly for months 1, 3, 5, 7, 8, 10 and 12; 30 exactly for 4, 6, 9 and 11; 29 exactly in a leap February; 28 exactly in a common February |
| Dates.FirstOfNextMonth | kakeibo_app/app.py:169-170 | `next_month_start` is day 1 of the month right after the given one (month index + 1), with the month in 1..12 |
| Dates.MonthSpan | kakeibo_app/app.py:167-170 | The half-open range [month_start, next_month_start) covers exactly `last_day` days, counted by day ordinals |
| Dates.DaysBeforeNextYear | kakeibo_app/app.py:168-170 | Consecutive years start 365 or 366 days apart, as the leap-year rule says; this is the step MonthSpan needs at December |
| Dates.InMonthRange | kakeibo_app/app.py:178-182 | A valid date lies in [first of the month, first of the next month) exactly when its year and month are the month's |
| Dates.KnownWeekdays | kakeibo_app/app.py:211 | The weekday numbering agrees with Python's: 1 January of year 1 and 1 September 2025 are Mondays |
| MonthNav.PrevMonth | kakeibo_app/app.py:172-173 | The previous month is in 1..12 and one month earlier on the time line, so January goes to December of the year before |
| MonthNav.NextMonth | kakeibo_app/app.py:174-175 | The next month is in 1..12 and one month later on the time line, so December goes to January of the year after |
| MonthNav.PrevNextInverse | kakeibo_app/app.py:172-175 | Previous and next are inverse to each other in both orders |
| MonthNav.Rollover | kakeibo_app/app.py:172-175 | January's previous month is December of year − 1; December's next month is January of year + 1 |
| MonthNav.ComputeMonthBounds | kakeibo_app/app.py:167-175 | Succeeds exactly when month is in 1..12, year in 1..9999 and the month is not December 9999. Otherwise it reports the date `date()` rejects: (year, month, 1) for a month or year out of range, and (10000, 1, 1) for December 9999. On success: both dates are valid, `month_start` is day 1, `last_day` is the Gregorian length and equals the span to `next_month_start`, and the navigation targets are the neighbouring months, with the next month matching `next_month_start` |
| MonthNav.MonthLengthExamples | kakeibo_app/app.py:167-170 | February has 29 days in 2024 and 28 in 2023; April 2024 has 30; December 9999 and month 13 fail |
| Ledger.CategoryName | kakeibo_app/app.py:193 | The grouping key is the category's name, or 未分類 when the transaction has no category |
| Ledger.MonthTotals | kakeibo_app/app.py:185-187 | income is the sum of the income amounts; expense is the sum of the expense amounts; balance = income − expense; income + expense is the sum of all amounts; no transactions gives (0, 0, 0) |
| Ledger.IncomePlusExpense | kakeibo_app/app.py:185-186 | Every transaction is counted in exactly one of the two sums |
| Ledger.SumOfKindPermutation | kakeibo_app/app.py:185-186 | The sums do not depend on the order in which the query returns rows |
| Ledger.TotalsExample | kakeibo_app/app.py:185-187 | Expenses 100 and 50 with income 500 give totals (500, 150, 350) |
| Categories.GroupByCategory | kakeibo_app/app.py:190-193 | The `defaultdict` loop returns exactly the grouped rows: one row per expense category name in first-encounter order, with that name's summed expense amounts |
| Categories.GroupedSpec | kakeibo_app/app.py:190-193 | The grouped rows have distinct names. A name appears exactly when some expense carries it (income never contributes). Each row's total is its name's expense sum. Rows follow the order in which names first occur. The totals add up to the month's expense |
| Categories.GroupedTotal | kakeibo_app/app.py:190-193 | The category totals sum to the month's expense total |
| Categories.FirstOccurrencesOrder | kakeibo_app/app.py:190-193 | Dictionary insertion order: keys appear in the order of their first occurrence |
| Categories.SortByTotalDesc | kakeibo_app/app.py:194 | `sorted(by_cat.items(), key=total, reverse=True)` keeps the number of rows; its order is stated by Categories.SortByTotalDescSpec |
| Categories.SortByTotalDescSpec | kakeibo_app/app.py:194 | `sorted(..., key=total, reverse=True)` gives a permutation of its input with non-increasing totals. It is stable: the rows of any one total keep their relative order. Distinct names stay distinct |
| Categories.InsertByTotalWithTotal | kakeibo_app/app.py:194 | Inserting a row after every row with at least its total appends it to the rows of its own total: the stability step |
| Categories.CategoryBreakdown | kakeibo_app/app.py:190-196 | `cat_rows` is the stable descending sort of the grouped rows: a permutation of them, non-increasing, distinct names, equal-total rows in first-encounter order. The grouped totals sum to the expense total. `cat_labels` and `cat_values` are its name and total projections, of equal length |
| Daily.AddToDay | kakeibo_app/app.py:202-208 | One pass of the loop adds the amount to its day's income slot (income) or expense slot (anything else), sets that day's balance, and keeps every slot equal to its day's sum and every balance equal to income − expense |
| Daily.DailySeries | kakeibo_app/app.py:199-208 | The three arrays have length `last_day`. Slot d − 1 of the income array is the day-d sum of income amounts, and of the expense array the day-d sum of the other amounts. Every balance slot is income − expense |
| Daily.SeriesSums | kakeibo_app/app.py:199-208 | The income series sums to the month's income and the expense series to its expense; a day with no transaction keeps 0 in both |
| Daily.DaysSumTotal | kakeibo_app/app.py:199-208 | When every transaction is dated within days 1..n, the per-day sums over those days add up to the kind's total |
| MonthCalendar.MonthMatrix | kakeibo_app/app.py:211 | `monthcalendar` has 4 to 6 weeks of exactly 7 cells, and the cells are the leading blanks, the days and the trailing blanks; what each cell holds is stated by MonthCalendar.MonthMatrixCells, MonthMatrixPadding and MonthMatrixWeekdays |
| MonthCalendar.MonthMatrixCells | kakeibo_app/app.py:211 | Cell (w, c) holds 7w + c − lead + 1 between the leading and trailing blanks and 0 elsewhere, so the non-zero cells read 1..`last_day` in order, each once |
| MonthCalendar.MonthMatrixPadding | kakeibo_app/app.py:211 | A 0 appears only among the leading cells of the first week or the trailing cells of the last week |
| MonthCalendar.MonthMatrixWeekdays | kakeibo_app/app.py:211 | Day d of the month sits in the column of its weekday counted from the first weekday (Sunday for the dashboard); in particular the 1st sits at its weekday column |
| MonthCalendar.SeptemberExample | kakeibo_app/app.py:211 | September 2025, Sunday first: five weeks, the first being [0, 1, 2, 3, 4, 5, 6] and the last [28, 29, 30, 0, 0, 0, 0] |
| DatabaseUrl.ReplaceFirst | kakeibo_app/app.py:25 | `str.replace(pattern, replacement, 1)` leaves a string without the pattern unchanged |
| DatabaseUrl.Rescheme | kakeibo_app/app.py:24-25 | A URL starting with `postgres://` gets exactly that prefix replaced by `postgresql+psycopg://`; any other URL is unchanged; the result never starts with `postgres://` |
| DatabaseUrl.RequireSsl | kakeibo_app/app.py:27-29 | The result always contains `sslmode=`. A URL that already has it is unchanged. Any other URL is kept as a prefix, followed by `&sslmode=require` when it contains `?` and by `?sslmode=require` otherwise |
| DatabaseUrl.ConfigureDatabaseUri | kakeibo_app/app.py:21-32 | A missing or empty setting gives `sqlite:///kakeibo.db`; any other gives the setting with its scheme renamed and SSL required |
| DatabaseUrl.RewriteIdempotent | kakeibo_app/app.py:21-29 | Rewriting an already rewritten URL changes nothing |
| DatabaseUrl.ConfigureIdempotent | kakeibo_app/app.py:21-32 | A non-empty setting yields a non-empty URI that is a fixed point of the rewrite and is never the SQLite default |
| DatabaseUrl.LegacyUrlExample | kakeibo_app/app.py:24-29 | `postgres://u@h/db` becomes `postgresql+psycopg://u@h/db?sslmode=require` |
| DatabaseUrl.QueryUrlExample | kakeibo_app/app.py:27-29 | `postgresql://h/db?x=1` becomes `postgresql://h/db?x=1&sslmode=require` |
| Dashboard.InRange | kakeibo_app/app.py:178-182 | The query keeps the transactions dated on or after `month_start` and before `next_month_start`, each as many times as it is stored, and drops all others |
| Dashboard.MonthFilter | kakeibo_app/app.py:178-182 | For valid stored dates, the date-range query keeps exactly the stored transactions of that year and month, each as many times as it is stored |
| Dashboard.MonthTransactionsWithin | kakeibo_app/app.py:178-208 | Every transaction the query returns is dated on a day 1..`last_day`, so the daily loop's indices `d − 1` are in range |
| Dashboard.BuildDashboard | kakeibo_app/app.py:157-211 | The dashboard fails exactly when the month's dates cannot be built, and reports that error. Otherwise it shows the resolved month and its bounds. Its transactions are the stored ones of that year and month, each as many times as it is stored. It shows their totals and the sorted, distinct, permuted category rows with their projections. Its per-day series have length `last_day`, hold per-day sums and add up to the totals. Its weeks are the Sunday-first month matrix |

## Left out

- Flask routing, templates, `flash`, `redirect`, CSRF and the login session are request plumbing and are not modelled.
- The SQLAlchemy query is I/O. The stored transactions are an input already restricted to the logged-in user, and the date-range filter is `Dashboard.InRange`. The query has no `ORDER BY`, so its row order is taken as given. The totals do not depend on it (`Ledger.SumOfKindPermutation`); the category order among equal totals does, exactly as in the source.
- `seed_categories`, the database commits and password hashing are database I/O and a foreign library call; they are not part of this model.
- The WTForms declarations are not modelled. Their constraints appear in the types: amounts are `nat` (`NumberRange(min=0)`) and the kind is one of two constructors (the `ck_tx_kind` check).
- The database's integer width for `amount` is not modelled. Amounts and sums are unbounded, as Python's `int` is.
- `date.today()` and `os.getenv("DATABASE_URL")` are parameters (`today`, `env`).
- Parsing the query string is outside the model: `request.args.get(..., type=int)` turns a missing or non-integer value into `None`, and the model starts from that `Option<int>`.
- The global `calendar.setfirstweekday(calendar.SUNDAY)` is a parameter of `MonthCalendar.MonthMatrix`, which the dashboard fixes to `Sunday`.
- `month_str` and the `day_labels` text are display formatting and are not modelled. `day_values` is the same list as `daily_expense`, which the report holds as `dailyExpense`.
- Dates.Weekday: its own contract states only that the result is in 0..6. Its values are pinned by `Dates.KnownWeekdays` and used through the calendar lemmas.
- DatabaseUrl.ReplaceFirst: its own contract states only that a string without the pattern is unchanged. The prefix replacement the source performs is stated on `DatabaseUrl.Rescheme`.
