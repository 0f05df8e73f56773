# BakeHub ordering core, modelled in Dafny

BakeHub is a bakery shop: customers sign in by e-mailed one-time code, fill a cart
on the product pages, and check out. The server prices each order from its own
catalogue, applies a coupon and stores the order. Admins manage products and assign
orders to delivery boys, who update the delivery status. This project models the
rules behind those steps. Each core source file becomes one Dafny module:

- `ProductModel` (product_model.dfy) and `OrderModel` (order_model.dfy) cover the
  product and order records: their enums, validators and defaults. `Users`
  (users.dfy) holds the fields of a user that the routes read.
- `OrderRoutes` (orders.dfy) covers the order routes. Creating an order checks the
  date, address, pincode, items and coupon in the handler's order. A loop prices
  the items from the catalogue, then the handler applies the coupon, saves the order
  and raises each product's order count. The module also covers order access,
  pagination, admin status changes, delivery assignment, the delivery list and
  delivery-status updates.
- `Auth` (auth.dfy) covers the OTP store and the user collection as a class, with
  send-otp, verify-otp (login or sign-up) and the profile update.
- `Cloudinary` (cloudinary.dfy) covers the upload-folder choice and `extractPublicId`.
  The URL regular expression is modelled by the order in which a backtracking matcher
  tries its alternatives. Extraction is proved to invert the storage's URL shape.
- `Upload` (upload.dfy) covers the MIME-type filter and the single- and
  multiple-upload responses.
- `Cart` (cart.dfy) covers the cart context's add, remove, update, clear and total.
- `ProductDetail` (product_detail.dfy) covers the product page: the default weight,
  the weight picker, the quantity stepper and add-to-cart, which adds the item once
  per unit of quantity.
- `AdminProducts` (admin_products.dfy) covers the admin product form's list edits
  and the ten-image cap.
- `Checkout` (checkout.dfy) covers address selection, the place-order guards and
  request body, the shown total and the pincode digit filter.
- `Common` (common.dfy) holds shared helpers: substring search, ASCII case mapping
  and decimal digits.

The database is a value that the routes take and return. The clock, random draws,
generated ids, the mailer's result and the storage's answers are parameters. Where
the code and its documentation differ, the model follows the code. A flat coupon
can discount more than the subtotal, so a stored total can be negative. The admin
status route stores strings outside the status enum. The upload filter accepts any
MIME type that contains an image-type name. All three are proved as the code
behaves. One behaviour is evidently a slip and is listed under "Findings": the order
lookup (GET /:id) is modelled both as written and as intended.

## Model

| member | source | states |
|---|---|---|
| ProductModel.ParseWeight | backend/models/Product.js:26-37 | a weight string passes the enum check exactly when it is one of "½ kg", "1 kg", "2 kg", and then names that weight |
| ProductModel.WeightLabelRoundTrip | backend/models/Product.js:26-37 | every enum weight is accepted under its own label, and a string is accepted only if it is a label |
| ProductModel.NewProduct | backend/models/Product.js:4-73 | a new product stores its name trimmed and gets the schema defaults (empty description, not eggless, egg option on, stock 0, order count 0, active, not a pre-order, no dates); it is valid exactly when the name has a character that is not white space, a category is given, its price is non-negative and every option has an enum weight and a non-negative price |
| ProductModel.NameTrimmed | backend/models/Product.js:4-8 | a name of white space only is refused by `required`; a name without surrounding white space is stored as given; trimming before creating changes nothing |
| ProductModel.ValidOptionWeights | backend/models/Product.js:26-37 | every weight option of a schema-valid product carries one of the three labels and a non-negative price |
| ProductModel.FindWeight | backend/routes/orders.js:56 | the first option with the requested weight, and None exactly when no option has it |
| OrderModel.ParseStatus | backend/models/Order.js:77-81 | a status string passes the enum check exactly when it is one of the seven names, and then names that status |
| OrderModel.StatusRoundTrip | backend/models/Order.js:77-81 | the seven status names and nothing else are accepted, each naming its own status |
| OrderModel.NewOrder | backend/models/Order.js:4-103 | an order built from the required fields gets the schema defaults (no discount, delivery charge or commission, empty coupon, commission rate 10, status and payment "Pending", no delivery boy); it validates exactly when user and address are given, the payment method is in its enum and every item validates |
| OrderModel.ValidOrderItems | backend/models/Order.js:21-48 | every item of a schema-valid order has quantity at least 1 and a name |
| OrderRoutes.ComputeSubtotal | backend/routes/orders.js:49-62 | the loop's result is the front-to-back pricing: the sum of stored option price times quantity, or the first item refused |
| OrderRoutes.PricingRejectedExtends | backend/routes/orders.js:49-62 | once a prefix of the items is refused, every longer prefix is refused with the same error |
| OrderRoutes.PricedIffAllItemsPass | backend/routes/orders.js:49-62 | the items are priced exactly when every item names an active product and one of its weights |
| OrderRoutes.RejectionIsFirstFailure | backend/routes/orders.js:49-62 | a refusal carries the error of the first failing item, and every earlier item passes |
| OrderRoutes.ClientPriceIgnored | backend/routes/orders.js:49-62 | the prices the client sends with its items do not affect the subtotal |
| OrderRoutes.CheckItemNonNegative | backend/routes/orders.js:51-61 | an item of a product with non-negative stored prices and a non-negative quantity prices to a non-negative amount |
| OrderRoutes.SubtotalNonNegative | backend/routes/orders.js:49-62 | with non-negative catalogue prices and quantities the subtotal is non-negative |
| OrderRoutes.FindCoupon | backend/routes/orders.js:67-73 | the index of the first coupon with the upper-cased code that is active and valid now; None exactly when there is none |
| OrderRoutes.CouponDiscount | backend/routes/orders.js:80-89 | no discount below the minimum order; a flat coupon gives its value; a percentage coupon gives that share of the subtotal, capped by its maximum when one is set |
| OrderRoutes.PercentageDiscountBounded | backend/routes/orders.js:81-85 | a percentage coupon of at most 100% with a non-negative cap never discounts more than the subtotal |
| OrderRoutes.FlatDiscountCanExceedSubtotal | backend/routes/orders.js:86-94 | for every flat coupon whose value exceeds a subtotal at or above its minimum, the whole value is discounted and the built order's total is below zero |
| OrderRoutes.ApplyCoupon | backend/routes/orders.js:64-91 | the coupon step finds the coupon the request names (none for an empty code), refuses exactly a found coupon at its usage limit, and otherwise gives that coupon's discount on the subtotal, or 0 without a coupon |
| OrderRoutes.CreateOrder | backend/routes/orders.js:28-163 | the handler's response and database afterwards are those of the create rules: the checks in order, the subtotal loop, the coupon, a failed save as 500, then 201 with the order and both counters raised |
| OrderRoutes.CreateRejectionOrder | backend/routes/orders.js:28-62 | a refused request leaves the database unchanged; the first failing check decides the answer: date 400, address 404, pincode 400, then 400 when any item is refused |
| OrderRoutes.CreatedOrderPricing | backend/routes/orders.js:93-119 | a successful request answers 201 and stores an order with the catalogue subtotal, the coupon discount, total = subtotal − discount + delivery charge 0, commission 10% of the total, status "Pending", payment "Pending" exactly for cash on delivery (else "Paid"), the request's items, and a valid schema |
| OrderRoutes.CreatedOrderItemsValid | backend/routes/orders.js:98-119 | every item of a stored order has quantity at least 1, and with non-negative prices its subtotal is non-negative |
| OrderRoutes.CouponUsage | backend/routes/orders.js:75-158 | a coupon at its usage limit refuses the order; otherwise a used coupon's usedCount rises by exactly one and the other coupons are unchanged |
| OrderRoutes.IncrementOrderCounts | backend/routes/orders.js:146-151 | the per-item loop leaves each product's orderCount raised by the items' quantities |
| OrderRoutes.OrderCountsRise | backend/routes/orders.js:146-151 | after a stored order each product's orderCount has grown by the total quantity ordered of it, and its other fields are unchanged |
| OrderRoutes.QuantityOfAppend | backend/routes/orders.js:146-151 | the quantity of a product over two item lists is the sum over each |
| OrderRoutes.PopulatedRefText | backend/routes/orders.js:186-199 | after `populate`, the reference's text is present exactly when it names a stored user, and then it is document text opening with "{" |
| OrderRoutes.GetOrderAsWritten | backend/routes/orders.js:183-203 | 404 when the order is missing; 200 with the order exactly when a customer owns it, or a delivery boy's id equals the text of the populated reference, or the caller is an admin; else 403 |
| OrderRoutes.AssignedDeliveryBoyRefused | backend/routes/orders.js:186-201 | as written, every delivery boy gets 403 on an existing order, the assigned one included, while the intended rule grants the assigned one |
| OrderRoutes.GetOrder | backend/routes/orders.js:183-203 | the intended access rule (see Findings): 404 when the order is missing, 403 when the reader may not see it, else 200 with the order |
| OrderRoutes.AccessRules | backend/routes/orders.js:195-201 | under the intended rule, a customer reads only their own orders, a delivery boy only orders assigned to them, an admin every order |
| OrderRoutes.PagesCoverOrders | backend/routes/orders.js:218-234 | with a positive limit, the last page starts before the end and the page after it starts at or past the end |
| OrderRoutes.DefaultPageSize | backend/routes/orders.js:213-234 | an absent page is page 1 and skips nothing; an absent limit is 20, so page p skips 20·(p − 1) and t orders make ⌈t / 20⌉ pages |
| OrderRoutes.UpdateStatus | backend/routes/orders.js:245-259 | 404 for a missing order and no change; otherwise only that order's status changes, to the given string, and the changed order is returned |
| OrderRoutes.AdminStatusNotValidated | backend/routes/orders.js:249-253 | every string outside the status enum is stored as the order's status and answered with 200 |
| OrderRoutes.AssignDelivery | backend/routes/orders.js:267-296 | 404 for a missing order; an empty id clears the assignment, except that an order whose stored status is set to a string outside the enum fails the save with 500 and is not written; a non-empty id must name an active delivery boy (else 400) and assigns that user at `now` with status "Assigned to Delivery Boy"; every stored result passes the enum check (an enum name, or unset) |
| OrderRoutes.AssignmentTransitions | backend/routes/orders.js:277-294 | clearing removes the delivery boy and time, moves "Assigned to Delivery Boy" back to "Preparing" and keeps any other status and field; assigning then clearing gives the order unassigned and "Preparing"; an assigned status is in the enum |
| OrderRoutes.DeliveryListRules | backend/routes/orders.js:309-314 | an order just assigned to a delivery boy is on that boy's list and on no other list; a cleared order, or one that is pending, preparing, delivered or cancelled, is on no list |
| OrderRoutes.UpdateDeliveryStatus | backend/routes/orders.js:327-348 | 404 for a missing order, 403 unless it is assigned to the caller, 500 for a given status outside the enum; else 200 and only its status changes, to the given one or to unset when the body has no `orderStatus` |
| Auth.OtpValue | backend/routes/auth.js:14-16 | the drawn number lies between 100000 and 999999 |
| Auth.GeneratedOtpIsSixDigits | backend/routes/auth.js:14-16 | a generated code is six decimal digits with no leading zero, and reads back as the drawn number |
| Common.NatToStringDigits | backend/routes/auth.js:15 | the decimal string of a k-digit number has length k, digits only, no leading zero, and reads back as the number |
| Common.ToLower | backend/routes/auth.js:28 | each character is mapped to lower case, and the length is unchanged |
| Common.ToLowerIdempotent | backend/routes/auth.js:70 | lower-casing twice is lower-casing once |
| Common.Trim | backend/models/Product.js:7 | `trim` keeps the slice between leading and trailing white space (JavaScript's white space and line terminators); it is empty exactly when the text is all white space, and otherwise starts and ends with a character that is not white space |
| Common.TrimIdempotent | backend/models/Product.js:7 | a text without surrounding white space is unchanged, and trimming twice is trimming once |
| Common.ToUpper | backend/routes/orders.js:69 | each character is mapped to upper case, and the length is unchanged |
| Auth.SendRules | backend/routes/auth.js:19-50 | an address without '@' gives 400 and leaves the store unchanged; otherwise the code is stored under the lower-cased address for five minutes, and other entries stay; 200 when mail succeeds, else 500 with the mailer's error |
| Auth.VerifyRules | backend/routes/auth.js:69-92 | with both fields given: no entry is refused and leaves the store; an expired code is refused and its entry deleted; a wrong code is refused and its entry kept; a code is accepted exactly when it matches in time, and its entry is then deleted; other addresses' entries are untouched |
| Auth.SingleUse | backend/routes/auth.js:92 | a code that was accepted cannot be accepted again |
| Auth.SendThenVerify | backend/routes/auth.js:28-92 | a code sent to an address verifies up to its expiry instant under any spelling with the same lower-case form, and is refused as expired after it |
| Auth.LoginRules | backend/routes/auth.js:92-108 | after an accepted code the entry is gone; an unknown address creates a customer under the lower-cased address; a known address leaves the users unchanged; an inactive user gets 403; the answer is 200 with the user exactly when the user is active |
| Auth.EditProfileRules | backend/routes/auth.js:180-188 | name and mobile are overwritten only by non-empty values; the e-mail, role and active flag never change |
| Auth.AuthService.constructor | backend/routes/auth.js:11 | the OTP store starts empty, with the given users |
| Auth.AuthService.SendOtp | backend/routes/auth.js:19-50 | the response and the new store are those of the send-otp rules |
| Auth.AuthService.VerifyOtp | backend/routes/auth.js:61-108 | the response, users and store are those of the verify-otp and login rules |
| Auth.AuthService.UpdateProfile | backend/routes/auth.js:180-188 | a missing user gives 500 and no change; otherwise the stored user becomes the edited user and is returned with 200; the OTP store is unchanged |
| Cloudinary.FolderPrecedence | backend/utils/cloudinary.js:43-52 | the folder is banners for a banner field or path; else products for a product field or path; else uploads for the image fields; else the root folder |
| Cloudinary.BannerRouteWins | backend/utils/cloudinary.js:43-52 | a product field sent on a banner path goes to the banner folder |
| Cloudinary.LazyCapture | backend/utils/cloudinary.js:115 | a lazy capture ends where the rest of the URL is empty or one extension |
| Cloudinary.NoMarkerNoMatch | backend/utils/cloudinary.js:115 | without "/upload/" from a position on, nothing matches from there |
| Cloudinary.ExtractWithoutMarker | backend/utils/cloudinary.js:111-124 | an empty URL or one without "/upload/" gives no public id |
| Cloudinary.MatchFromFirst | backend/utils/cloudinary.js:115 | the match is the attempt at the first "/upload/" |
| Cloudinary.CaptureOfId | backend/utils/cloudinary.js:115 | for "id" or "id.ext" after the marker, the lazy capture is the id |
| Cloudinary.FirstMarker | backend/utils/cloudinary.js:115 | a URL prefix with no "/upload/" that does not end in "/upload" puts the first marker right after the prefix |
| Cloudinary.VersionOfSegment | backend/utils/cloudinary.js:115 | a "v<digits>/" segment is recognised with its full length |
| Cloudinary.MatchUnversioned | backend/utils/cloudinary.js:115 | without a version segment the capture after the marker is the id |
| Cloudinary.MatchVersioned | backend/utils/cloudinary.js:115 | with a version segment the match skips it and captures the id |
| Cloudinary.ExtractFromDeliveryUrl | backend/utils/cloudinary.js:111-124 | for a well-formed delivery URL the extracted id is the stored id with one leading "bakehub/" removed |
| Cloudinary.StripOnce | backend/utils/cloudinary.js:118 | only one leading "bakehub/" is removed |
| Cloudinary.ExtractExample | backend/utils/cloudinary.js:111-124 | "cdn/upload/v1712/bakehub/products/cake.jpg" gives "products/cake" |
| Upload.FilterVerdict | backend/routes/upload.js:7-16 | a file is refused exactly when the filter fails, with the filter's message |
| Upload.FilterIsSubstringSearch | backend/routes/upload.js:9-10 | the filter accepts exactly the types in which one of the five names occurs |
| Upload.FilterExamples | backend/routes/upload.js:9-10 | image/jpeg, image/png and image/webp pass, text/html fails, and text/x-jpg-notes passes |
| Upload.FileUrlFallback | backend/routes/upload.js:83-91 | the URL is the first non-empty one of path, url and secure_url, and is missing only when all three are |
| Upload.SingleErrorRules | backend/routes/upload.js:38-60 | file-size, file-count and field errors give 400 with their messages; a signature failure gives 401 with its `error` and `hint`; any other error gives 400 with its message and `error` set to that message |
| Upload.SingleFileRules | backend/routes/upload.js:62-98 | no file gives 400; a file without any URL gives 500 and echoes the file record; success returns one of the file's URLs and its public id |
| Upload.MultipleRules | backend/routes/upload.js:104-136 | every error gives 400, signature failures included; no files gives 400; otherwise one URL and one (url, publicId) record per file in order, each chosen as the single route chooses it |
| Upload.ImageUrlsAppend | backend/routes/upload.js:123-134 | the URLs of two batches are the two URL lists concatenated |
| Cart.Find | frontend/src/context/CartContext.jsx:32-37 | the first line with the key, and None exactly when no line has it |
| Cart.AddExisting | frontend/src/context/CartContext.jsx:39-48 | adding a key already present raises only that line's quantity by one |
| Cart.AddAbsent | frontend/src/context/CartContext.jsx:50-52 | adding a new key appends one line with quantity 1 |
| Cart.AddPreservesValid | frontend/src/context/CartContext.jsx:28-55 | adding keeps keys unique and quantities at least 1 |
| Cart.AddTimesExisting | frontend/src/context/CartContext.jsx:28-55 | n adds of a present key raise that line by n and change nothing else |
| Cart.AddTimesAbsent | frontend/src/context/CartContext.jsx:28-55 | n ≥ 1 adds of a new key append one line with quantity n |
| Cart.RemoveMembers | frontend/src/context/CartContext.jsx:57-68 | the lines after removal are exactly the lines without the key |
| Cart.RemoveAbsent | frontend/src/context/CartContext.jsx:57-68 | removing an absent key changes nothing |
| Cart.RemoveExisting | frontend/src/context/CartContext.jsx:57-68 | when one line has the key, removing drops exactly that line and keeps the rest in order |
| Cart.RemovePreservesValid | frontend/src/context/CartContext.jsx:57-68 | removal keeps the cart valid |
| Cart.UpdateNonPositiveRemoves | frontend/src/context/CartContext.jsx:70-74 | a quantity of zero or less removes the line |
| Cart.UpdatePositive | frontend/src/context/CartContext.jsx:76-84 | a positive quantity is set on the keyed line, and its delivery date only when one is given; the other lines are unchanged |
| Cart.UpdatePreservesValid | frontend/src/context/CartContext.jsx:70-85 | an update keeps the cart valid |
| Cart.OperationsKeepValid | frontend/src/context/CartContext.jsx:28-89 | any sequence of cart operations keeps keys unique and quantities at least 1 |
| Cart.TotalAppend | frontend/src/context/CartContext.jsx:91-93 | the total of two carts joined is the sum of their totals |
| Cart.TotalReplace | frontend/src/context/CartContext.jsx:91-93 | replacing one line changes the total by the difference of the line totals |
| Cart.TotalAfterClear | frontend/src/context/CartContext.jsx:87-93 | a cleared cart totals 0 |
| Cart.TotalAfterAddNew | frontend/src/context/CartContext.jsx:50-52 | adding a new item raises the total by its price |
| Cart.TotalAfterAddExisting | frontend/src/context/CartContext.jsx:39-48 | adding a present item raises the total by the stored line's price, not the added item's |
| Cart.TotalAfterRemove | frontend/src/context/CartContext.jsx:57-68 | removing a line lowers the total by that line's total |
| ProductDetail.DefaultSelection | frontend/src/pages/customer/ProductDetail.jsx:40-51 | a loaded product selects its first weight option at that option's price; without options, a non-zero product price is shown and the weight is untouched |
| ProductDetail.WeightChangeRules | frontend/src/pages/customer/ProductDetail.jsx:66-72 | an unknown weight changes nothing; a known one is selected at the price of its first option |
| ProductDetail.StepperRules | frontend/src/pages/customer/ProductDetail.jsx:131-137 | the quantity never drops below 1, and decreasing undoes increasing |
| ProductDetail.HandleAddToCart | frontend/src/pages/customer/ProductDetail.jsx:74-129 | the guards are checked in order and a refusal leaves the cart unchanged; otherwise the built item is added once per unit of quantity |
| ProductDetail.AddRaisesQuantityByN | frontend/src/pages/customer/ProductDetail.jsx:119-123 | adding with quantity n raises the item's line by n, or appends a line of quantity n; the cart stays valid and other lines unchanged |
| ProductDetail.CartItemFallbacks | frontend/src/pages/customer/ProductDetail.jsx:84-117 | the weight falls back to "Standard" and the price to the product price; a regular product is delivered tomorrow 09:00-12:00, a pre-order at the chosen date and time |
| ProductDetail.GuardRules | frontend/src/pages/customer/ProductDetail.jsx:75-92 | with options, no chosen weight refuses the add; a pre-order needs date and time; a regular product with a weight (or no options) is accepted |
| AdminProducts.ImageCapReached | frontend/src/pages/admin/Products.jsx:161-173 | with ten or more images already, picking adds nothing and shows the maximum notice |
| AdminProducts.ImageCapKept | frontend/src/pages/admin/Products.jsx:175-182 | below the cap only the first (10 − count) picked files are appended, in order; all of them when they fit; the total stays at most ten |
| AdminProducts.RemoveIndexSpec | frontend/src/pages/admin/Products.jsx:185-193 | the index filter drops exactly the element at the index and keeps the rest in order; an index out of range changes nothing |
| AdminProducts.RemoveImage | frontend/src/pages/admin/Products.jsx:185-188 | exactly the picked file at the index is dropped, and the others stay in order |
| AdminProducts.RemoveExistingImage | frontend/src/pages/admin/Products.jsx:190-193 | exactly the form's saved image at the index is dropped, the others stay in order, and every other form field is unchanged |
| AdminProducts.ReplaceExistingImage | frontend/src/pages/admin/Products.jsx:195-219 | only the image at the index changes, to the uploaded URL; no file or a failed upload changes nothing |
| AdminProducts.AddWeightOption | frontend/src/pages/admin/Products.jsx:233-238 | one row "1 kg" with an empty price is appended after the unchanged rows |
| AdminProducts.UpdateWeightOption | frontend/src/pages/admin/Products.jsx:240-244 | only the given field of the given row changes |
| AdminProducts.DatePart | frontend/src/pages/admin/Products.jsx:120-121 | the first ten characters of the timestamp, or all of it when shorter |
| AdminProducts.EditDefaults | frontend/src/pages/admin/Products.jsx:105-123 | a product without options gets one "½ kg" row at its price; otherwise rows keep their order and prices; active and egg option stay on unless set to false |
| AdminProducts.EmptyFormMatchesEditDefaults | frontend/src/pages/admin/Products.jsx:21-35 | the empty form starts with one "½ kg" row, active, with the egg option and not eggless |
| AdminProducts.SubmitImages | frontend/src/pages/admin/Products.jsx:60-75 | the saved images are the existing URLs, then the uploaded URLs in order when files were picked |
| AdminProducts.SubmitOptions | frontend/src/pages/admin/Products.jsx:78-81 | one option per row, keeping its weight, with its price as a number |
| AdminProducts.EditThenSubmitKeepsOptions | frontend/src/pages/admin/Products.jsx:78-81 | opening a product and saving it unchanged keeps its weight options |
| Checkout.FindDefault | frontend/src/pages/customer/Checkout.jsx:48 | the first default address, and None exactly when none is default |
| Checkout.PreferredIdRules | frontend/src/pages/customer/Checkout.jsx:239-245 | the preferred id is the default address's, else the first's, else "" for an empty list |
| Checkout.InitialSelection | frontend/src/pages/customer/Checkout.jsx:44-53 | the loaded list selects its default address, else the first; an empty list keeps the selection |
| Checkout.RemoveById | frontend/src/pages/customer/Checkout.jsx:235 | no address with the id remains, every other address is kept, and the first address without the id comes first |
| Checkout.RemoveByIdAppend | frontend/src/pages/customer/Checkout.jsx:235 | the filter keeps the list's order: filtering a joined list is joining the filtered parts |
| Checkout.HandleDelete | frontend/src/pages/customer/Checkout.jsx:230-252 | a confirmed, successful delete drops the address; deleting the selected one reselects the preferred remaining address; any other selection is kept |
| Checkout.DeleteSelectedRules | frontend/src/pages/customer/Checkout.jsx:238-246 | after deleting the selection, the new one is a remaining address (the default if one remains), and with no default remaining it is the first address of the original list without the deleted id; "" when none remain |
| Checkout.ReplaceById | frontend/src/pages/customer/Checkout.jsx:261-263 | every address with the edited id becomes the saved one, and the others are unchanged |
| Checkout.AddressSubmitRules | frontend/src/pages/customer/Checkout.jsx:254-272 | editing replaces in place, and creating appends; the saved address is listed and selected |
| Checkout.BodyItems | frontend/src/pages/customer/Checkout.jsx:326-333 | one item per cart line, each with that line's six fields |
| Checkout.PlaceOrder | frontend/src/pages/customer/Checkout.jsx:306-344 | the address, pincode and empty-cart guards, in order; otherwise the body carries the items, the address, the coupon, the payment method and the first line's date and time; paying online asks for subtotal − discount |
| Checkout.BodyMatchesCart | frontend/src/pages/customer/Checkout.jsx:326-333 | a valid cart gives items with positive quantities whose price-times-quantity sum is the cart total |
| Checkout.KeepDigitsRules | frontend/src/pages/customer/Checkout.jsx:581 | the kept text is all digits and no longer than the typed text; digits alone are unchanged; filtering twice is filtering once |
| Checkout.KeepDigitsAppend | frontend/src/pages/customer/Checkout.jsx:581 | a typed digit is kept at the end, and anything else is dropped |

## Left out

- Input and output are not modelled: HTTP, Express routing, multer parsing, the Cloudinary SDK, the mailer, Razorpay and its script, browser geolocation and reverse geocoding, toasts, rendering and navigation. Their results are parameters or are absent.
- JWT, the token-refresh interceptor, localStorage persistence of the cart and the server setup are not modelled.
- Mongoose queries are maps looked up by id: find, save, populate, sort and `$inc`. List order from `sort`, field projection and the documents `populate` puts into responses are not modelled. The one place where `populate` changes a decision, GET /:id's delivery-boy check, is modelled (OrderRoutes.PopulatedRefText). The order list pages are modelled only by their arithmetic.
- The Coupon, Address, DeliveryPincode and User schemas are not part of this model. Their fields appear only as the handlers read them. In Auth a user is keyed by e-mail; in the order routes' database a user is keyed by user id.
- Concurrency is not modelled: the in-process OTP map shared between requests, and state captured by React closures before an await.
- Numbers are exact `real` values. JavaScript floating-point rounding is not modelled: the percentage discount, the 10% commission, cart totals and `Number(...)` on form text.
- Auth.OtpValue: the floor of 100000 + r·900000 is taken exactly. With floating-point rounding, r very close to 1 could round to 1000000, and that case is not covered.
- Query strings for `page` and `limit` are integers or absent. Text that is not numeric (NaN) or fractional is not modelled.
- A JSON field that is absent or falsy is the empty string, false or None. The difference between `undefined`, `null` and `""` is not kept. The exception is `orderStatus`: an order's status is None when unset, and the delivery-status body's `orderStatus` is None when absent, because there an absent status passes the save's enum check where `""` fails it.
- OrderRoutes.UpdateStatus: the admin body's `orderStatus` is always a string; a request without it is not modelled, since what `findByIdAndUpdate` does with an `undefined` value depends on the Mongoose version.
- Exceptions are not modelled: every `catch` that answers 500 "Server error" or shows a failure toast. The exceptions are the save validations that are modelled as a 500: create-order's save, assign-delivery's save (an order whose stored status is outside the enum) and delivery-status's save (a status outside the enum).
- Upload.MultipleUpload: a file with no URL or no public id gives "" in `imageUrls` and `images`, where the code gives `undefined`.
- Auth.FindOrCreate: a new user is taken to be active. The User schema's `isActive` default is not part of this model, and this choice decides LoginRules' 200 case for a first login.
- Common.ToLower, Common.ToUpper: only ASCII letters change case. JavaScript's full Unicode case mapping and UTF-16 code units are not modelled.
- Cart operations as React state updates are modelled as functions from the previous cart. Batching and re-rendering are not modelled.
- AdminProducts.ReplaceExistingImage, AdminProducts.UpdateWeightOption: the index must be that of a displayed row. Assigning past the end, which would extend a JavaScript array, is excluded.
- The `maxLength={6}` limit on the pincode input is a browser control and is not modelled. The tomorrow date of a regular product is a parameter.
- Deleting and fetching products, categories and coupon verification from the admin and checkout pages are network calls outside this model. So is what happens after the order request (clearing the cart, navigating).

## Findings

| source | as written | input that shows it | evidently intended | confidence | as-written member | corrected member |
|---|---|---|---|---|---|---|
| backend/routes/orders.js:186-199 | `deliveryBoyId` is populated with the user document before the check, and the document's `toString()` (its printed fields) is compared with the caller's id, so a delivery boy is always refused | order o1 with `deliveryBoyId` = u7 (a stored delivery boy); u7 calls GET /o1 and gets 403 "Access denied" | the assigned delivery boy reads the order | medium, not executed (rests on Mongoose printing a populated document rather than its id) | OrderRoutes.GetOrderAsWritten, OrderRoutes.AssignedDeliveryBoyRefused | OrderRoutes.GetOrder, OrderRoutes.AccessRules |
